/** The map carried by GlobalMark and LocalMark entries: a map tag byte, then
    (tag, key, value) triples with the one-letter keys of Neovim's shada format
    (l: line, c: column, n: mark name, f: file name). The loop that reads them
    stops once its byte counter reaches the entry's declared length. */
module MarkMap {
  import opened Bytes
  import opened Errors
  import opened VarUint
  import opened ByteSource

  const KeyLine: Byte := 0x6C   // 'l'
  const KeyColumn: Byte := 0x63 // 'c'
  const KeyName: Byte := 0x6E   // 'n'
  const KeyFile: Byte := 0x66   // 'f'

  /** What the decoder keeps of a mark: `field_l`, `field_n` and `field_f`. */
  datatype Fields = Fields(line: nat, name: nat, file: seq<Byte>)

  /** The values of absent keys: line 1, mark name 34 (the code of '"'), no file. */
  const Defaults := Fields(1, 34, [])

  /** One decoded (tag, key, value) triple. */
  datatype Field = Line(n: nat) | Column(n: nat) | Name(n: nat) | File(path: seq<Byte>)

  /** A decoded triple, or the value part of one, and the number of bytes it took. */
  datatype FieldRead = FieldRead(field: Field, size: nat)

  /** The keys the decoder knows. */
  predicate IsKey(k: Byte) {
    k == KeyLine || k == KeyColumn || k == KeyName || k == KeyFile
  }

  /** The failures a mark's map can end in. */
  predicate MapError(e: Error) {
    e.Truncated? || e.UnsupportedUint? || e.UnexpectedKey?
  }

  /** The value of an l, c or n triple, read at `pos`: one `read_uint`. */
  function DecodeScalar(s: seq<Byte>, pos: nat, key: Byte): (r: Result<FieldRead>)
    ensures r.Ok? ==> 1 <= r.value.size && pos + r.value.size <= |s|
    ensures r.Ok? ==> (r.value.field.Line? <==> key == KeyLine) && (r.value.field.Name? <==> key == KeyName)
    ensures r.Ok? ==> !r.value.field.File?
    ensures r.Fail? ==> MapError(r.error)
  {
    var u :- ReadUint(s, pos);
    var field := if key == KeyLine then Line(u.value) else if key == KeyName then Name(u.value) else Column(u.value);
    Ok(FieldRead(field, u.consumed))
  }

  /** The value of an f triple, read at `pos`: a tag byte that is not looked at,
      a `read_uint` length, then that many bytes of file name. */
  function DecodeFile(s: seq<Byte>, pos: nat): (r: Result<FieldRead>)
    ensures r.Ok? ==> r.value.field.File? && pos + r.value.size <= |s|
    ensures r.Ok? ==> 2 + |r.value.field.path| <= r.value.size
    ensures r.Fail? ==> MapError(r.error)
  {
    if |s| < pos + 1 then Fail(Truncated)
    else
      var u :- ReadUint(s, pos + 1);
      var start := pos + 1 + u.consumed;
      if |s| < start + u.value then Fail(Truncated)
      else Ok(FieldRead(File(s[start..start + u.value]), 1 + u.consumed + u.value))
  }

  /** One pass of the field loop at position `pos`: a tag byte that is not looked
      at and a key byte, then the value the key calls for. Any key other than
      l, c, n and f is refused. */
  function DecodeField(s: seq<Byte>, pos: nat): (r: Result<FieldRead>)
    ensures r.Ok? ==> 3 <= r.value.size && pos + r.value.size <= |s|
    ensures r.Ok? ==> (r.value.field.Line? <==> s[pos + 1] == KeyLine)
    ensures r.Ok? ==> (r.value.field.Name? <==> s[pos + 1] == KeyName)
    ensures r.Ok? ==> (r.value.field.File? <==> s[pos + 1] == KeyFile)
    ensures pos + 2 <= |s| && !IsKey(s[pos + 1]) ==>
              r == Fail(UnexpectedKey(s[pos + 1]))
    ensures r.Fail? ==> MapError(r.error)
  {
    if |s| < pos + 2 then Fail(Truncated)
    else
      var key := s[pos + 1];
      var v :- if key == KeyFile then DecodeFile(s, pos + 2)
               else if IsKey(key) then DecodeScalar(s, pos + 2, key)
               else Fail(UnexpectedKey(key));
      Ok(FieldRead(v.field, 2 + v.size))
  }

  /** The bytes one triple takes: the tag and key bytes, then one `read_uint`
      for l, c and n; for f a further tag byte, the `read_uint` length and that
      many bytes of name. */
  lemma DecodeFieldSize(s: seq<Byte>, pos: nat)
    requires DecodeField(s, pos).Ok?
    ensures var r := DecodeField(s, pos).value;
      !r.field.File? ==> ReadUint(s, pos + 2).Ok? && r.size == 2 + ReadUint(s, pos + 2).value.consumed
    ensures var r := DecodeField(s, pos).value;
      r.field.File? ==>
        && ReadUint(s, pos + 3).Ok?
        && r.size == 3 + ReadUint(s, pos + 3).value.consumed + ReadUint(s, pos + 3).value.value
  {
  }

  /** The effect of one triple on the kept fields: a repeated key overwrites,
      and a column is read but not kept. */
  function Apply(acc: Fields, f: Field): (r: Fields)
    ensures f.Column? ==> r == acc
  {
    match f
    case Line(n) => acc.(line := n)
    case Column(_) => acc
    case Name(n) => acc.(name := n)
    case File(p) => acc.(file := p)
  }

  /** The kept fields after the triples `fs`, in order. */
  function Collect(acc: Fields, fs: seq<Field>): Fields
    decreases |fs|
  {
    if fs == [] then acc else Collect(Apply(acc, fs[0]), fs[1..])
  }

  /** The value of the last `l` triple of `fs`, if any. */
  function LastLine(fs: seq<Field>): Option<nat> {
    if fs == [] then None
    else if fs[|fs| - 1].Line? then Some(fs[|fs| - 1].n)
    else LastLine(fs[..|fs| - 1])
  }

  /** The value of the last `n` triple of `fs`, if any. */
  function LastName(fs: seq<Field>): Option<nat> {
    if fs == [] then None
    else if fs[|fs| - 1].Name? then Some(fs[|fs| - 1].n)
    else LastName(fs[..|fs| - 1])
  }

  /** The value of the last `f` triple of `fs`, if any. */
  function LastFile(fs: seq<Field>): Option<seq<Byte>> {
    if fs == [] then None
    else if fs[|fs| - 1].File? then Some(fs[|fs| - 1].path)
    else LastFile(fs[..|fs| - 1])
  }

  lemma {:induction false} CollectSnoc(acc: Fields, fs: seq<Field>, f: Field)
    ensures Collect(acc, fs + [f]) == Apply(Collect(acc, fs), f)
    decreases |fs|
  {
    if fs != [] {
      assert (fs + [f])[1..] == fs[1..] + [f];
      CollectSnoc(Apply(acc, fs[0]), fs[1..], f);
    }
  }

  /** The last occurrence of each key wins, and an absent key keeps its earlier value. */
  lemma {:induction false} CollectKeepsLast(acc: Fields, fs: seq<Field>)
    ensures Collect(acc, fs) ==
              Fields(LastLine(fs).GetOr(acc.line), LastName(fs).GetOr(acc.name), LastFile(fs).GetOr(acc.file))
    decreases |fs|
  {
    if fs != [] {
      var init, f := fs[..|fs| - 1], fs[|fs| - 1];
      assert fs == init + [f];
      CollectSnoc(acc, init, f);
      CollectKeepsLast(acc, init);
    }
  }

  /** The result of the field loop: the kept fields and the final `processed` count. */
  datatype MapRead = MapRead(fields: Fields, processed: nat)

  /** The `while processed < total_length` loop, from position `pos` with the
      counter at `processed`: every byte a triple takes is added to the counter,
      and the loop stops as soon as the counter reaches `total`. */
  function DecodeFields(s: seq<Byte>, pos: nat, processed: nat, total: nat, acc: Fields): (r: Result<MapRead>)
    ensures r.Ok? ==> processed <= r.value.processed && total <= r.value.processed
    ensures r.Ok? && processed < r.value.processed ==> pos + (r.value.processed - processed) <= |s|
    ensures total <= processed ==> r == Ok(MapRead(acc, processed))
    ensures r.Fail? ==> MapError(r.error)
    decreases total - processed
  {
    if total <= processed then Ok(MapRead(acc, processed))
    else
      var d := DecodeField(s, pos);
      if d.Fail? then Fail(d.error)
      else DecodeFields(s, pos + d.value.size, processed + d.value.size, total, Apply(acc, d.value.field))
  }

  /** The whole map of a mark entry whose length field said `total`, read from
      `pos`: the map tag byte counts 1, then the field loop. The entry ends at
      `pos + processed`, which may pass `total`: an overshoot is not detected. */
  function DecodeMark(s: seq<Byte>, pos: nat, total: nat): (r: Result<MapRead>)
    ensures r.Ok? ==> 1 <= r.value.processed && total <= r.value.processed
    ensures r.Ok? ==> pos + r.value.processed <= |s|
    ensures total <= 1 && pos < |s| ==> r == Ok(MapRead(Defaults, 1))
    ensures r.Fail? ==> MapError(r.error)
  {
    if |s| < pos + 1 then Fail(Truncated)
    else DecodeFields(s, pos + 1, 1, total, Defaults)
  }

  /** One turn of the field loop: below the total, a triple that decodes is
      applied, and the loop goes on from `next` with the counter at `counted`,
      both advanced by the triple's size. */
  lemma DecodeFieldsStep(s: seq<Byte>, pos: nat, processed: nat, total: nat, acc: Fields,
                         f: Field, n: nat, next: nat, counted: nat)
    requires processed < total && DecodeField(s, pos) == Ok(FieldRead(f, n))
    requires next == pos + n && counted == processed + n
    ensures DecodeFields(s, pos, processed, total, acc) == DecodeFields(s, next, counted, total, Apply(acc, f))
  {
  }

  lemma DecodeFieldsFail(s: seq<Byte>, pos: nat, processed: nat, total: nat, acc: Fields)
    requires processed < total && DecodeField(s, pos).Fail?
    ensures DecodeFields(s, pos, processed, total, acc) == Fail(DecodeField(s, pos).error)
  {
  }

  // ---------------------------------------------------------------------------
  // The map as Neovim writes it

  /** Values fit the 32-bit forms of `read_uint`; a file name is written as bin 8
      with a length below 0xCC, which `read_uint` reads as a value of its own. */
  predicate Encodable(f: Field) {
    match f
    case Line(n) => n < 0x1_0000_0000
    case Column(n) => n < 0x1_0000_0000
    case Name(n) => n < 0x1_0000_0000
    case File(p) => |p| < 0xCC
  }

  predicate AllEncodable(fs: seq<Field>) {
    forall i :: 0 <= i < |fs| ==> Encodable(fs[i])
  }

  const StrTag: Byte := 0xA1 // fixstr of length 1, the type of every key
  const BinTag: Byte := 0xC4 // bin 8

  /** The number of bytes `EncodeUint(n)` takes. */
  function UintSize(n: nat): nat {
    if n < 0x80 then 1 else if n < 0x100 then 2 else if n < 0x1_0000 then 3 else 5
  }

  /** The number of bytes `EncodeField(f)` takes. */
  function FieldSize(f: Field): nat {
    match f
    case File(p) => 4 + |p|
    case _ => 2 + UintSize(f.n)
  }

  /** One triple: the key as a one-character string, then its value. */
  function EncodeField(f: Field): (e: seq<Byte>)
    requires Encodable(f)
    ensures |e| == FieldSize(f)
  {
    match f
    case Line(n) => [StrTag, KeyLine] + EncodeUint(n)
    case Column(n) => [StrTag, KeyColumn] + EncodeUint(n)
    case Name(n) => [StrTag, KeyName] + EncodeUint(n)
    case File(p) => [StrTag, KeyFile, BinTag, |p| as Byte] + p
  }

  function EncodeFields(fs: seq<Field>): (e: seq<Byte>)
    requires AllEncodable(fs)
    ensures |e| <= 0xCF * |fs|
  {
    if fs == [] then [] else EncodeField(fs[0]) + EncodeFields(fs[1..])
  }

  /** The map of a mark entry: a fixmap tag with the number of triples, then the triples. */
  function EncodeMark(fs: seq<Field>): (e: seq<Byte>)
    requires AllEncodable(fs) && |fs| < 16
    ensures |e| >= 1
  {
    [0x80 + |fs| as Byte] + EncodeFields(fs)
  }

  lemma DecodeEncodedFile(p: seq<Byte>, s: seq<Byte>, pos: nat)
    requires Encodable(File(p))
    requires pos + |EncodeField(File(p))| <= |s| && s[pos..pos + |EncodeField(File(p))|] == EncodeField(File(p))
    ensures DecodeField(s, pos) == Ok(FieldRead(File(p), |EncodeField(File(p))|))
  {
    var e := EncodeField(File(p));
    assert s[pos + 1] == e[1] == KeyFile;
    assert s[pos + 3] == e[3];
    DirectPrefix(s, pos + 3);
    assert ReadUint(s, pos + 3) == Ok(Uint(|p|, 1));
    assert s[pos + 4..pos + 4 + |p|] == e[4..] == p;
  }

  /** An encoded triple decodes to itself and takes exactly its encoding. */
  lemma DecodeEncodedField(f: Field, s: seq<Byte>, pos: nat)
    requires Encodable(f)
    requires pos + |EncodeField(f)| <= |s| && s[pos..pos + |EncodeField(f)|] == EncodeField(f)
    ensures DecodeField(s, pos) == Ok(FieldRead(f, |EncodeField(f)|))
  {
    if f.File? {
      DecodeEncodedFile(f.path, s, pos);
    } else {
      var e := EncodeField(f);
      assert s[pos + 1] == e[1];
      assert s[pos + 2..pos + |e|] == e[2..];
      ReadEncodeUint(f.n, s, pos + 2);
    }
  }

  /** The triples `fs` decode one after the other from `pos` on, taking the
      sizes `ns` that `DecodeField` gives them, each starting where the one
      before ended. */
  ghost predicate DecodesAs(s: seq<Byte>, pos: nat, fs: seq<Field>, ns: seq<nat>)
    decreases |fs|
  {
    |fs| == |ns| &&
    (fs == [] ||
     (DecodeField(s, pos) == Ok(FieldRead(fs[0], ns[0]))
      && DecodesAs(s, pos + ns[0], fs[1..], ns[1..])))
  }

  lemma DecodesAsCons(s: seq<Byte>, pos: nat, f: Field, n: nat, fs: seq<Field>, ns: seq<nat>, next: nat)
    requires next == pos + n
    requires DecodeField(s, pos) == Ok(FieldRead(f, n)) && DecodesAs(s, next, fs, ns)
    ensures DecodesAs(s, pos, [f] + fs, [n] + ns)
  {
    assert ([f] + fs)[1..] == fs && ([n] + ns)[1..] == ns;
  }

  function Sum(ns: seq<nat>): nat {
    if ns == [] then 0 else ns[0] + Sum(ns[1..])
  }

  /** Each of the triples with sizes `ns`, counted from `counter` on, starts
      below `total`: the loop reads every one of them. */
  ghost predicate StartsBelow(counter: nat, ns: seq<nat>, total: nat)
    decreases |ns|
  {
    ns == [] || (counter < total && StartsBelow(counter + ns[0], ns[1..], total))
  }

  /** Triples that decode fill a total equal to their sizes exactly, each
      starting below it. */
  lemma {:induction false} DecodedStartsBelow(s: seq<Byte>, pos: nat, fs: seq<Field>, ns: seq<nat>,
                                              counter: nat, total: nat)
    requires DecodesAs(s, pos, fs, ns) && total == counter + Sum(ns)
    ensures StartsBelow(counter, ns, total)
    decreases |fs|
  {
    if fs != [] {
      assert Sum(ns) == ns[0] + Sum(ns[1..]);
      DecodedStartsBelow(s, pos + ns[0], fs[1..], ns[1..], counter + ns[0], total);
    }
  }

  /** Encoded triples split into the first one's `n` bytes and the others'
      bytes from `next` on. */
  lemma EncodedFieldsSplit(fs: seq<Field>, s: seq<Byte>, pos: nat, n: nat, next: nat)
    requires fs != [] && AllEncodable(fs)
    requires pos + |EncodeFields(fs)| <= |s| && s[pos..pos + |EncodeFields(fs)|] == EncodeFields(fs)
    requires n == |EncodeField(fs[0])| && next == pos + n
    ensures Encodable(fs[0]) && next <= |s| && s[pos..next] == EncodeField(fs[0])
    ensures AllEncodable(fs[1..]) && |EncodeFields(fs)| == n + |EncodeFields(fs[1..])|
    ensures next + |EncodeFields(fs[1..])| <= |s| && s[next..next + |EncodeFields(fs[1..])|] == EncodeFields(fs[1..])
  {
    var e0, rest := EncodeField(fs[0]), EncodeFields(fs[1..]);
    assert EncodeFields(fs) == e0 + rest;
    SliceSplit(s, pos, e0, rest);
  }

  /** The first encoded triple decodes to itself, and so the run that starts
      with it decodes when the others do. */
  lemma EncodedFieldsCons(fs: seq<Field>, s: seq<Byte>, pos: nat, n: nat, next: nat,
                          tail: seq<nat>, ns: seq<nat>)
    requires fs != [] && Encodable(fs[0]) && n == |EncodeField(fs[0])| && next == pos + n
    requires next <= |s| && s[pos..next] == EncodeField(fs[0])
    requires DecodesAs(s, next, fs[1..], tail) && ns == [n] + tail
    ensures DecodesAs(s, pos, fs, ns) && Sum(ns) == n + Sum(tail)
  {
    DecodeEncodedField(fs[0], s, pos);
    DecodesAsCons(s, pos, fs[0], n, fs[1..], tail, next);
    assert [fs[0]] + fs[1..] == fs;
    assert ns[1..] == tail;
  }

  /** Encoded triples decode one after the other, each taking its encoding. */
  lemma {:induction false} EncodedFieldsDecode(fs: seq<Field>, s: seq<Byte>, pos: nat)
    returns (ns: seq<nat>)
    requires AllEncodable(fs)
    requires pos + |EncodeFields(fs)| <= |s| && s[pos..pos + |EncodeFields(fs)|] == EncodeFields(fs)
    ensures DecodesAs(s, pos, fs, ns) && Sum(ns) == |EncodeFields(fs)|
    decreases |fs|
  {
    if fs == [] {
      ns := [];
    } else {
      var n := |EncodeField(fs[0])|;
      var next := pos + n;
      EncodedFieldsSplit(fs, s, pos, n, next);
      var tail := EncodedFieldsDecode(fs[1..], s, next);
      var head: seq<nat> := [n];
      ns := head + tail;
      EncodedFieldsCons(fs, s, pos, n, next, tail, ns);
    }
  }

  /** The first of a nonempty run of decoded triples, with what the rest of
      the run still satisfies from where the first ends. */
  lemma ChainHead(fs: seq<Field>, ns: seq<nat>, s: seq<Byte>, pos: nat,
                  processed: nat, total: nat, acc: Fields)
      returns (f: Field, n: nat, rest: seq<Field>, sizes: seq<nat>, next: nat, counted: nat)
    requires fs != [] && DecodesAs(s, pos, fs, ns) && StartsBelow(processed, ns, total)
    ensures next == pos + n && counted == processed + n
    ensures processed < total && DecodeField(s, pos) == Ok(FieldRead(f, n))
    ensures DecodesAs(s, next, rest, sizes) && StartsBelow(counted, sizes, total)
    ensures |rest| < |fs| && Sum(ns) == n + Sum(sizes) && Collect(acc, fs) == Collect(Apply(acc, f), rest)
  {
    f, n, rest, sizes := fs[0], ns[0], fs[1..], ns[1..];
    next, counted := pos + n, processed + n;
  }

  /** The field loop over triples that decode as `fs` with sizes `ns`, when
      each of them starts below `total` and the counter reaches `total` after
      the last: the kept fields are those the triples set, last one winning,
      and the counter ends where the triples end, past `total` when the map
      overshoots its declared length. */
  lemma {:induction false} DecodeFieldsChain(fs: seq<Field>, ns: seq<nat>, s: seq<Byte>, pos: nat,
                                             processed: nat, total: nat, acc: Fields)
    requires DecodesAs(s, pos, fs, ns) && StartsBelow(processed, ns, total) && total <= processed + Sum(ns)
    ensures DecodeFields(s, pos, processed, total, acc) == Ok(MapRead(Collect(acc, fs), processed + Sum(ns)))
    decreases |fs|
  {
    if fs != [] {
      var f, n, rest, sizes, next, counted := ChainHead(fs, ns, s, pos, processed, total, acc);
      DecodeFieldsStep(s, pos, processed, total, acc, f, n, next, counted);
      DecodeFieldsChain(rest, sizes, s, next, counted, total, Apply(acc, f));
    } else {
      assert ns == [] && Sum(ns) == 0 && total <= processed;
      assert Collect(acc, fs) == acc;
    }
  }

  /** A map whose triples run past its declared length is accepted: with a
      total of 2, one `l` triple of 3 bytes sets the line and the counter ends
      at 4. */
  lemma OvershootAccepted(s: seq<Byte>)
    requires s == [0x81, StrTag, KeyLine, 0x07]
    ensures DecodeMark(s, 0, 2) == Ok(MapRead(Fields(7, 34, []), 4))
  {
    assert DecodeField(s, 1) == Ok(FieldRead(Line(7), 3));
    assert DecodesAs(s, 1, [Line(7)], [3]);
    DecodeFieldsChain([Line(7)], [3], s, 1, 1, 2, Defaults);
  }

  /** After the map tag, the triples of an encoded map decode one after the other. */
  lemma EncodedMarkFields(fs: seq<Field>, s: seq<Byte>, pos: nat, start: nat) returns (ns: seq<nat>)
    requires AllEncodable(fs) && |fs| < 16 && start == pos + 1
    requires pos + |EncodeMark(fs)| <= |s| && s[pos..pos + |EncodeMark(fs)|] == EncodeMark(fs)
    ensures pos < |s| && DecodesAs(s, start, fs, ns) && |EncodeMark(fs)| == 1 + Sum(ns)
  {
    var body, e := EncodeFields(fs), EncodeMark(fs);
    assert s[start..start + |body|] == e[1..] == body;
    ns := EncodedFieldsDecode(fs, s, start);
  }

  /** Round trip: a mark map written by the encoder and framed by its own length
      decodes to the fields the triples set, last occurrence winning, and takes
      exactly the declared length. */
  lemma DecodeEncodedMark(fs: seq<Field>, s: seq<Byte>, pos: nat)
    requires AllEncodable(fs) && |fs| < 16
    requires pos + |EncodeMark(fs)| <= |s| && s[pos..pos + |EncodeMark(fs)|] == EncodeMark(fs)
    ensures DecodeMark(s, pos, |EncodeMark(fs)|) == Ok(MapRead(Collect(Defaults, fs), |EncodeMark(fs)|))
  {
    var total, start := |EncodeMark(fs)|, pos + 1;
    var ns := EncodedMarkFields(fs, s, pos, start);
    DecodedStartsBelow(s, start, fs, ns, 1, total);
    DecodeFieldsChain(fs, ns, s, start, 1, total, Defaults);
  }

  /** A file name of 0xCC bytes written as bin 8 is misread: `read_uint` takes
      its length byte for the uint 8 prefix, so the name's first byte becomes the
      length (47 for '/'), and the rest of the name is left in the stream. */
  lemma LongFileNameMisread(p: seq<Byte>, s: seq<Byte>)
    requires |p| == 0xCC && p[0] == 0x2F
    requires s == [StrTag, KeyFile, BinTag, 0xCC] + p
    ensures DecodeField(s, 0) == Ok(FieldRead(File(p[1..48]), 52))
  {
    assert s[4] == p[0];
    assert s[5..52] == p[1..48];
  }

  /** The other bin 8 length bytes: up to 0xE0 outside 0xCC–0xD3 a length byte
      is its own value, so the name decodes to itself; 0xCF–0xD3 and 0xE1–0xFF
      are prefixes `read_uint` refuses. */
  lemma BinEightLengths(p: seq<Byte>, s: seq<Byte>)
    requires |p| < 0x100 && s == [StrTag, KeyFile, BinTag, |p| as Byte] + p
    ensures |p| <= 0xE0 && !(0xCC <= |p| <= 0xD3) ==> DecodeField(s, 0) == Ok(FieldRead(File(p), 4 + |p|))
    ensures (0xCF <= |p| <= 0xD3 || 0xE0 < |p|) ==> DecodeField(s, 0) == Fail(UnsupportedUint(|p| as Byte))
  {
    assert s[1] == KeyFile && s[3] == |p| as Byte;
    if |p| <= 0xE0 && !(0xCC <= |p| <= 0xD3) {
      DirectPrefix(s, 3);
      assert s[4..4 + |p|] == p;
    } else {
      ReadUintFails(s, 3);
    }
  }

  /** A name of 256 bytes or more is written as bin 16 (0xC5 and a two-byte
      length); the tag is not looked at, so the high length byte is read as the
      whole length: a 256-byte name becomes the one byte after it. */
  lemma BinSixteenMisread(p: seq<Byte>, s: seq<Byte>)
    requires |p| == 0x100 && s == [StrTag, KeyFile, 0xC5, 0x01, 0x00] + p
    ensures DecodeField(s, 0) == Ok(FieldRead(File([0x00]), 5))
  {
    assert s[1] == KeyFile && s[3] == 0x01;
    DirectPrefix(s, 3);
    assert s[4..5] == [0x00];
  }

  // ---------------------------------------------------------------------------
  // The field loop on the reader

  /** The value of an l, c or n triple on the reader. */
  method ReadScalar(r: Reader, key: Byte) returns (res: Result<FieldRead>)
    requires r.chunk > 0
    modifies r
    ensures res == DecodeScalar(r.data, old(r.pos), key)
    ensures res.Ok? ==> r.pos == old(r.pos) + res.value.size
  {
    var u := ReadUintFrom(r);
    if u.Fail? {
      return u.PropagateFailure();
    }
    var field := if key == KeyLine then Line(u.value.value)
                 else if key == KeyName then Name(u.value.value)
                 else Column(u.value.value);
    return Ok(FieldRead(field, u.value.consumed));
  }

  /** The value of an f triple on the reader: the tag byte, the length and the
      file name, counting each as it is read. */
  method ReadFile(r: Reader) returns (res: Result<FieldRead>)
    requires r.chunk > 0
    modifies r
    ensures res == DecodeFile(r.data, old(r.pos))
    ensures res.Ok? ==> r.pos == old(r.pos) + res.value.size
  {
    ghost var s, at := r.data, r.pos;
    var tag := new Byte[1];
    var ok := ReadFully(r, tag);
    if !ok {
      return Fail(Truncated);
    }
    var size := tag.Length;
    var u := ReadUintFrom(r);
    if u.Fail? {
      return u.PropagateFailure();
    }
    size := size + u.value.consumed;
    var length := u.value.value;
    var filename := new Byte[length];
    ok := ReadFully(r, filename);
    if !ok {
      return Fail(Truncated);
    }
    size := size + length;
    assert filename[..] == s[at + size - length..at + size];
    return Ok(FieldRead(File(filename[..]), size));
  }

  /** One pass of the field loop on the reader: the tag and key bytes, then the
      value, counting every byte read. */
  method ReadField(r: Reader) returns (res: Result<FieldRead>)
    requires r.chunk > 0
    modifies r
    ensures res == DecodeField(r.data, old(r.pos))
    ensures res.Ok? ==> r.pos == old(r.pos) + res.value.size
  {
    ghost var s, at := r.data, r.pos;
    var tag := new Byte[1];
    var key := new Byte[1];
    var ok := ReadFully(r, tag);
    if !ok {
      return Fail(Truncated);
    }
    var size := tag.Length;
    ok := ReadFully(r, key);
    if !ok {
      return Fail(Truncated);
    }
    size := size + key.Length;
    assert key[0] == s[at + 1];
    var v: Result<FieldRead>;
    if key[0] == KeyFile {
      v := ReadFile(r);
    } else if key[0] == KeyLine || key[0] == KeyColumn || key[0] == KeyName {
      v := ReadScalar(r, key[0]);
    } else {
      return Fail(UnexpectedKey(key[0]));
    }
    if v.Fail? {
      return v.PropagateFailure();
    }
    return Ok(FieldRead(v.value.field, size + v.value.size));
  }

  /** Reads a mark's map from the reader, as `main` does after the length field:
      the map tag byte, then triples while `processed < total`, counting every
      byte read. The reader ends exactly `processed` bytes further on. */
  method DecodeMarkFrom(r: Reader, total: nat) returns (res: Result<MapRead>)
    requires r.chunk > 0
    modifies r
    ensures res == DecodeMark(r.data, old(r.pos), total)
    ensures res.Ok? ==> r.pos == old(r.pos) + res.value.processed
  {
    ghost var s, start := r.data, r.pos;
    ghost var goal := DecodeMark(s, start, total);
    var tag := new Byte[1];
    var ok := ReadFully(r, tag);
    if !ok {
      return Fail(Truncated);
    }
    var processed: nat := tag.Length;
    var fieldL, fieldN, fieldF := 1, 34, [];
    ghost var acc := Defaults;
    while processed < total
      invariant r.data == s && r.pos == start + processed
      invariant acc == Fields(fieldL, fieldN, fieldF)
      invariant DecodeFields(s, r.pos, processed, total, acc) == goal
      decreases total - processed
    {
      ghost var at, before, accBefore := r.pos, processed, acc;
      var fr := ReadField(r);
      if fr.Fail? {
        DecodeFieldsFail(s, at, processed, total, acc);
        return fr.PropagateFailure();
      }
      var field, size := fr.value.field, fr.value.size;
      processed := processed + size;
      acc := Apply(acc, field);
      DecodeFieldsStep(s, at, before, total, accBefore, field, size, r.pos, processed);
      match field
      case Line(n) => fieldL := n;
      case Column(_) =>
      case Name(n) => fieldN := n;
      case File(p) => fieldF := p;
    }
    return Ok(MapRead(Fields(fieldL, fieldN, fieldF), processed));
  }
}
