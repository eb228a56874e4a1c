# nvim_marks: the ShaDa mark decoder, modelled in Dafny

`nvim_marks` reads Neovim's ShaDa session file. The file is a stream of
MessagePack-framed entries. The program prints one `name<TAB>line<TAB>path`
line for every global or local mark that is named by a letter and points to an
absolute file. This project models the decoder in `src/main.rs` and proves
properties of the model:

- `read_uint`, the decoder of MessagePack's "int format family", as it is
  written. Any prefix byte up to 0xE0 that is not a uint or int prefix counts
  as a value of its own.
- `read_fully`, a loop over a reader whose reads may come back short.
- The entry loop of `main`:
  - the two-byte header;
  - three dispatch cases (mark entry, entry without timestamp, any other
    timestamped entry);
  - the four-byte timestamp;
  - the length;
  - the forward seek, which does not look at the end of the file;
  - the quiet end when no complete header remains.
- The mark map loop. It reads (tag, key, value) triples with the keys `l`, `c`,
  `n` and `f`. A byte counter drives it, and it stops once the counter reaches
  the entry's declared length.
- The output filter: a letter name, a non-empty file name and a leading `/`.
  A qualifying file name that is not UTF-8 ends the run.

Every `panic!` and failed `expect` becomes a value of `Errors.Error`, and a run
ends in a `Transcript`: the printed lines, plus the failure that stopped it, if
any.

The model has two layers:

- **Specification functions** on the bytes of the file (`seq<Byte>`) and a
  position: `VarUint.ReadUint`, `MarkMap.DecodeField`, `MarkMap.DecodeMark`,
  `MarkFilter.Emit`, `EntryStream.EntryStep` and `EntryStream.DecodeStream`.
- **Imperative methods** over a `ByteSource.Reader` object, following the
  program's own loops (`ReadFully`, `DecodeMarkFrom`, `DumpMarks` and the
  methods in between). Each method is proved equal to its specification
  function, and the reader's position ends where the function says.

Encoders (`EncodeUint`, `EncodeMark`, `EncodeEntry`, `EncodeEntries`) write
values the way Neovim does. Round-trip lemmas prove:

- what the decoder makes of those bytes, from one integer up to a whole file;
- which lines are printed.

Behaviour of the program as written that the model keeps:

- `read_uint` takes every prefix byte up to 0xE0 that is not 0xCC–0xD3 as its
  own value: 0x80–0xCB and 0xD4–0xE0 as well as the positive fixints
  (`VarUint.DirectPrefix`).
- The `f` value is a tag byte, then a `read_uint` length, then the name. The
  tag is not looked at. Neovim writes names shorter than 256 bytes as bin 8
  (0xC4, one length byte), and what happens depends on that length byte:
  - 0xCC–0xCE are taken as uint prefixes. The name is misread and the stream
    loses its place (`MarkMap.LongFileNameMisread`: a 204-byte name read as 47
    bytes).
  - 0xCF–0xD3 and 0xE1–0xFF are refused, which ends the run
    (`MarkMap.BinEightLengths`).
  - 0xD4–0xE0, like every length below 0xCC, are their own value. The name
    decodes to itself: a 212-byte name takes 216 bytes (`MarkMap.BinEightLengths`).
  - Names of 256 bytes or more are written as bin 16 (0xC5, two length bytes).
    The high length byte is read as the whole length, so they are misread too
    (`MarkMap.BinSixteenMisread`).
- A map whose triples run past the declared length is accepted. The loop only
  tests `processed < total_length`, and the next entry starts where the
  triples ended (`MarkMap.DecodeFieldsChain`, `MarkMap.OvershootAccepted`).
- A skip whose length runs past the end of the file ends the run quietly, with
  no error (`EntryStream.SkipPastEndIsQuiet`).

Files:

| file | contents |
|---|---|
| `errors.dfy` | `Bytes`, which holds the `Byte` type and slice lemmas; `Errors`, which holds the failures, `Option` and `Result` |
| `var_uint.dfy` | `VarUint`: `read_uint`, the encoder, the round trip |
| `byte_source.dfy` | `ByteSource`: the reader, `read_fully`, `read_uint` on the reader |
| `utf8.dfy` | `Utf8`: well-formed UTF-8 as RFC 3629, section 4, defines it |
| `mark_map.dfy` | `MarkMap`: the triples, the counter loop, defaults and the last write winning, the map round trip, the loop on the reader |
| `mark_filter.dfy` | `MarkFilter`: the print filter |
| `entry_stream.dfy` | `EntryStream`: the entry loop as functions, the file round trip, the loop on the reader |

## Model

| member | source | states |
|---|---|---|
| VarUint.Width | src/main.rs:31-66 | the bytes an encoding takes, prefix included, is 1, 2, 3 or 5 |
| VarUint.Unsupported | src/main.rs:51-66 | a refused prefix (0xCF, 0xD0–0xD3, above 0xE0) is a one-byte form; any other prefix is at most 0xE0 |
| VarUint.BigEndian | src/main.rs:39-48 | the shifted sum of `n` bytes is below 256^n |
| VarUint.ReadUint | src/main.rs:23-68 | on success: a prefix byte is present and not refused, the bytes consumed equal that prefix's width and lie within the stream, and the value is below 2^32; on failure: the error is Truncated or UnsupportedUint; the value itself is given by `UintForms` and `DirectPrefix` |
| VarUint.ReadUintFails | src/main.rs:51-66 | fails iff the prefix is missing, the prefix is 0xCF, 0xD0–0xD3 or above 0xE0, or fewer bytes remain than the prefix announces; the error is UnsupportedUint with the prefix for a refused prefix, Truncated otherwise |
| VarUint.DirectPrefix | src/main.rs:60-66 | every prefix up to 0xE0 outside 0xCC–0xD3 decodes as its own value with 1 byte consumed |
| VarUint.UintForms | src/main.rs:32-50 | 0xCC, 0xCD and 0xCE followed by enough bytes give the value b1, b1·256 + b2 and b1·2^24 + b2·2^16 + b3·256 + b4 of the bytes that follow, with 2, 3 and 5 bytes consumed, whatever those bytes are |
| VarUint.LongerForms | src/main.rs:32-50 | forms longer than needed still decode: `CC 05` and `CD 00 05` give 5, `CE 00 00 01 00` gives 256 |
| VarUint.EncodeUint | src/main.rs:31-50 | the shortest encoding starts with a prefix that is not refused and has exactly that prefix's width |
| VarUint.ReadEncodeUint | src/main.rs:32-50 | decoding the encoding of any v < 2^32 gives back v and consumes exactly the encoding, in each of the 1, 2, 3 and 5 byte forms |
| VarUint.BigEndianBeBytes | src/main.rs:39-48 | the shifted sum of the bytes read is the value the encoder split into big-endian bytes |
| VarUint.WidthBoundaries | src/main.rs:60-66 | 0xE0 is still a value of its own and 0xE1 is refused; 255, 256, 65535 and 65536 take 2, 3, 3 and 5 bytes |
| ByteSource.Reader.constructor | src/main.rs:85 | a reader starts at position 0 of the file's bytes |
| ByteSource.Reader.Read | src/main.rs:13 | one read copies some number of bytes, at most min(chunk, room, bytes left) and zero only when that bound is zero, from the file at the position into the buffer, leaves the rest of the buffer alone and advances by that count |
| ByteSource.Reader.SeekRelative | src/main.rs:208 | the position moves forward by the given count, whatever the file's length |
| ByteSource.ReadFully | src/main.rs:9-21 | succeeds iff at least the buffer's length remains; on success the buffer holds exactly the next bytes of the file and the position advanced by its length; on failure the file is exhausted |
| ByteSource.ReadUintFrom | src/main.rs:23-68 | on the reader the result is `ReadUint` of the file at the old position, and on success the reader advanced by the bytes consumed |
| Utf8.LeadLength | src/main.rs:182 | an ASCII byte is a one-byte character, and no character is longer than 4 bytes or the input |
| Utf8.AsciiIsUtf8 | src/main.rs:182 | every ASCII byte string passes the UTF-8 check |
| Utf8.InvalidExamples | src/main.rs:182 | a lone continuation byte, an overlong form and an encoded surrogate are rejected; a two-byte é is accepted |
| MarkMap.DecodeScalar | src/main.rs:146-159 | an `l`, `c` or `n` value is one `read_uint` of at least one byte; the field is a line iff the key is `l` and a name iff it is `n`; failures are map failures |
| MarkMap.DecodeFile | src/main.rs:160-172 | an `f` value is a file field of at least 2 bytes plus the name's length, within the stream |
| MarkMap.DecodeField | src/main.rs:139-176 | a triple takes at least 3 bytes within the stream; the field kind matches the key; any key byte other than l, c, n and f fails with UnexpectedKey carrying that byte; failures are map failures |
| MarkMap.DecodeFieldSize | src/main.rs:139-172 | a decoded `l`, `c` or `n` triple takes 2 + the bytes `read_uint` consumed, and an `f` triple 3 + the length's bytes + the length |
| MarkMap.Apply | src/main.rs:146-171 | a `c` triple leaves the kept fields unchanged |
| MarkMap.CollectKeepsLast | src/main.rs:134-171 | after any triples each kept field is the value of its key's last triple, or its earlier value when the key is absent; `c` changes nothing |
| MarkMap.DecodeFields | src/main.rs:138-177 | the counter never decreases and ends at or above the total; at or above the total the loop stops at once; the bytes counted lie within the stream; failures are map failures |
| MarkMap.DecodeMark | src/main.rs:131-177 | the map tag counts 1; on success the count reaches the declared total and the counted bytes lie within the stream; a total of at most 1 gives the defaults (line 1, name 34, no file); failures are map failures |
| MarkMap.DecodeFieldsStep | src/main.rs:138-176 | below the total, one decoded triple is applied and its size added to both position and counter |
| MarkMap.DecodeFieldsFail | src/main.rs:173-175 | below the total, a triple that fails to decode ends the map with the same failure |
| MarkMap.EncodeField | src/main.rs:139-172 | an encoded triple takes exactly its computed size |
| MarkMap.DecodeEncodedField | src/main.rs:139-176 | any encodable triple written by the encoder decodes to itself and takes exactly its encoding |
| MarkMap.EncodedFieldsDecode | src/main.rs:138-177 | encoded triples decode one after another, each taking its own size |
| MarkMap.DecodedStartsBelow | src/main.rs:138 | triples that decode in sequence and fill a total exactly each start below it, so the loop reads all of them |
| MarkMap.DecodeFieldsChain | src/main.rs:138-177 | triples of any sizes that decode in sequence, each starting below the total and together reaching it, give the fields the triples set, in order, and a counter equal to where the last triple ends, past the total when the map overshoots |
| MarkMap.OvershootAccepted | src/main.rs:138-177 | a map declaring 2 bytes whose one triple takes 3 is accepted with line 7 and the counter at 4 |
| MarkMap.DecodeEncodedMark | src/main.rs:131-177 | an encoded map framed by its own length decodes to the defaults overwritten by its triples, last one winning, and consumes exactly the declared length |
| MarkMap.LongFileNameMisread | src/main.rs:160-172 | a 204-byte bin 8 file name starting with '/' is read as a 47-byte name and a 52-byte triple |
| MarkMap.BinEightLengths | src/main.rs:160-172 | a bin 8 name whose length byte is at most 0xE0 and outside 0xCC–0xD3 decodes to itself in 4 + length bytes; a length byte of 0xCF–0xD3 or above 0xE0 fails with UnsupportedUint carrying it |
| MarkMap.BinSixteenMisread | src/main.rs:160-172 | a 256-byte name written as bin 16 is read as the one byte after its length, in a 5-byte triple |
| MarkMap.ReadScalar | src/main.rs:146-159 | the reader version equals `DecodeScalar`, and the reader advanced by the value's size |
| MarkMap.ReadFile | src/main.rs:160-172 | the reader version equals `DecodeFile`, and the reader advanced by the size |
| MarkMap.ReadField | src/main.rs:139-176 | the reader version equals `DecodeField`, and the reader advanced by the size counted |
| MarkMap.DecodeMarkFrom | src/main.rs:131-177 | the imperative loop over `processed`, `field_l`, `field_n` and `field_f` returns `DecodeMark` of the file; `processed` is exactly the number of bytes the reader advanced |
| MarkFilter.Emit | src/main.rs:179-187 | a line is printed iff the name is in [A-Za-z] and the file name is non-empty and starts with '/'; the line carries that letter, the line number and the file name, which is valid UTF-8; a qualifying file name that is not UTF-8 is the only failure |
| MarkFilter.EmitExamples | src/main.rs:179-187 | mark 'A' on an absolute ASCII path is printed; the same mark on a relative path, or mark '1', is not |
| EntryStream.MarkBody | src/main.rs:131-187 | a decoded mark yields a next position within the file and past the map tag; any printed line passes the filter; failures are map or UTF-8 failures |
| EntryStream.MarkEntry | src/main.rs:108-110 | after the header: timestamp, length and map; the next entry starts at least timestamp + 2 bytes further on and within the file; any printed line passes the filter |
| EntryStream.SkipEntry | src/main.rs:204-208 | a skipped entry moves exactly `read_uint`'s bytes plus the declared length forward and prints nothing; failures come only from `read_uint` |
| EntryStream.EntryStep | src/main.rs:88-219 | the loop ends quietly iff fewer than two header bytes remain; a continuing step moves at least 3 bytes; a printed line comes only from a mark header, and that entry takes at least 8 bytes within the file; an unknown kind fails only for a kind above 11 and carries it, and a non-mark header with a kind above 11 (and its timestamp present, if announced) always fails so; a UTF-8 failure comes only from a mark entry |
| EntryStream.DecodeStream | src/main.rs:88-220 | a run from a position with fewer than two bytes left prints nothing and ends without failure; a run that prints anything has at least 8 bytes to read |
| EntryStream.StreamLines | src/main.rs:88-187 | every printed line in a run names a letter mark with an absolute file, and printed lines take at least 8 bytes of file each |
| EntryStream.StreamStep | src/main.rs:88-101 | an entry that continues prepends its line, if any, to the rest of the run |
| EntryStream.StreamStop | src/main.rs:98-101 | the end of the file or a failure ends the run with no further line |
| EntryStream.SkipPastEndIsQuiet | src/main.rs:198-208 | an entry without timestamp whose length seeks past the end of the file ends the run without error |
| EntryStream.MarkStep | src/main.rs:108-110 | a mark header whose length and map decode ends the step after the map with the filter's verdict |
| EntryStream.MarkOnBytes | src/main.rs:108-187 | a well-formed mark entry as Neovim writes it prints the filtered mark and the next entry starts right after it |
| EntryStream.PlainOnBytes | src/main.rs:198-208 | a well-formed entry without timestamp is skipped exactly, printing nothing |
| EntryStream.StampedOnBytes | src/main.rs:209-219 | a well-formed timestamped entry that is not a mark is skipped exactly, timestamp included, printing nothing |
| EntryStream.EntryStepOnBytes | src/main.rs:108-219 | any well-formed encoded entry makes one step that ends exactly after its bytes, with that entry's outcome |
| EntryStream.DecodeEncodedStream | src/main.rs:87-220 | a file made of well-formed encoded entries prints exactly the expected lines, in file order, at most one per mark entry, and ends at the end of the file or at the first failing mark |
| EntryStream.ReadMarkBody | src/main.rs:131-187 | the reader version equals `MarkBody`, and on success the reader is at the next entry |
| EntryStream.ReadMarkEntry | src/main.rs:108-187 | the reader version equals `MarkEntry`, and on success the reader is at the next entry |
| EntryStream.SkipEntryOn | src/main.rs:204-208 | the reader version equals `SkipEntry`, and on success the reader is at the next entry |
| EntryStream.ReadEntry | src/main.rs:88-219 | one turn of the loop on the reader equals `EntryStep`, and a continuing step leaves the reader at the next entry |
| EntryStream.DumpMarks | src/main.rs:85-220 | the loop on the reader prints exactly the lines of `DecodeStream` of the file, in order, and stops with its failure |

## Left out

- Locating and opening the file (home directory, command-line argument, `File::open`, src/main.rs:71-85) is OS configuration. `DumpMarks` takes the file's bytes and a bound on the length of one read.
- I/O errors other than the end of the file, which `read_fully` passes on, are not modelled. The reader in the model only ever reads short or reaches the end.
- The `DEBUG` output and the `cnt` counter (src/main.rs:7, 103-106, 111-113, 205-207, 215-217) are diagnostics that `DEBUG = false` switches off.
- The commented-out SearchPattern branch (src/main.rs:188-197) is dead code.
- Writing to stdout is modelled as the sequence of printed lines, and the process exit on a failure as the `failure` of the run. The panic messages are not modelled.
- `usize` arithmetic is modelled with unbounded integers. `read_uint` never produces a value of 2^32 or more, and the counter only grows by such values, so on a 64-bit target nothing wraps.
- The encoders cover what Neovim writes for these entries within the model's limits: fewer than 16 triples per map, and file names shorter than 0xCC bytes. Longer names are misread, refused or, for 0xD4–0xE0 bytes, decoded correctly; `MarkMap.LongFileNameMisread`, `MarkMap.BinEightLengths` and `MarkMap.BinSixteenMisread` state which. Entries with other map layouts are decoded by the model but have no encoder and no round-trip lemma.
- The `EncodeEntry`, `EncodeEntries`, `Outcome`, `Continue` and `Expected` definitions are reference functions for the round trip. They are not operations of the program.
