/** The main loop: ShaDa entries read one after another until the file ends.
    Each entry starts with a two-byte header, the entry kind and a byte that is
    0xCE when a four-byte timestamp follows. GlobalMark (7) and LocalMark (10)
    entries are decoded and filtered; every other entry is skipped by its length. */
module EntryStream {
  import opened Bytes
  import opened Errors
  import opened VarUint
  import opened ByteSource
  import opened MarkMap
  import opened MarkFilter

  const GlobalMark: Byte := 0x07
  const LocalMark: Byte := 0x0A
  /** The largest entry kind the decoder knows of. */
  const LastKnownKind: Byte := 11
  /** The second header byte that announces no timestamp. */
  const NoStamp: Byte := 0x00
  const StampSize: nat := 4

  /** The header of a GlobalMark or LocalMark entry with its timestamp. */
  predicate IsMarkHeader(kind: Byte, second: Byte) {
    second == Uint32Prefix && (kind == GlobalMark || kind == LocalMark)
  }

  /** What the program prints, and the failure that ended it, if one did. */
  datatype Transcript = Transcript(lines: seq<MarkLine>, failure: Option<Error>)

  /** `lines` printed before the rest of a run. */
  function Prepend(lines: seq<MarkLine>, t: Transcript): (r: Transcript)
    ensures r.failure == t.failure && |r.lines| == |lines| + |t.lines|
  {
    Transcript(lines + t.lines, t.failure)
  }

  lemma PrependTwice(a: seq<MarkLine>, b: seq<MarkLine>, t: Transcript)
    ensures Prepend(a, Prepend(b, t)) == Prepend(a + b, t)
  {
    assert a + (b + t.lines) == (a + b) + t.lines;
  }

  /** One turn of the loop: the end of the file, or the position of the next entry
      and the line printed for this one, if any. */
  datatype Step = End | Next(pos: nat, line: Option<MarkLine>)

  /** The rest of a mark entry once its length is known: the map from `start`,
      framed by `total`, then the filter. The next entry starts after the bytes the
      map loop counted. */
  function MarkBody(s: seq<Byte>, start: nat, total: nat): (r: Result<Step>)
    ensures r.Ok? ==> r.value.Next? && start + 1 <= r.value.pos <= |s|
    ensures r.Ok? && r.value.line.Some? ==>
              IsMarkLetter(r.value.line.value.name as nat) && IsAbsolute(r.value.line.value.file)
    ensures r.Fail? ==> MapError(r.error) || r.error == InvalidUtf8
  {
    var mark := DecodeMark(s, start, total);
    if mark.Fail? then Fail(mark.error)
    else
      var line := Emit(mark.value.fields);
      if line.Fail? then Fail(line.error)
      else Ok(Next(start + mark.value.processed, line.value))
  }

  /** A GlobalMark or LocalMark entry after its header: the timestamp, the length,
      then the map. */
  function MarkEntry(s: seq<Byte>, pos: nat): (r: Result<Step>)
    ensures r.Ok? ==> r.value.Next? && pos + StampSize + 2 <= r.value.pos <= |s|
    ensures r.Ok? && r.value.line.Some? ==>
              IsMarkLetter(r.value.line.value.name as nat) && IsAbsolute(r.value.line.value.file)
    ensures r.Fail? ==> MapError(r.error) || r.error == InvalidUtf8
  {
    if |s| < pos + StampSize then Fail(Truncated)
    else
      var len := ReadUint(s, pos + StampSize);
      if len.Fail? then Fail(len.error)
      else MarkBody(s, pos + StampSize + len.value.consumed, len.value.value)
  }

  /** Any other entry from its length on: the length, then a forward seek by it,
      which does not look at the end of the file. */
  function SkipEntry(s: seq<Byte>, pos: nat): (r: Result<Step>)
    ensures r.Ok? ==> r.value.Next? && r.value.line.None? && pos + 1 <= r.value.pos
    ensures r.Ok? ==>
              ReadUint(s, pos).Ok?
              && r.value.pos == pos + ReadUint(s, pos).value.consumed + ReadUint(s, pos).value.value
    ensures r.Fail? ==> r.error.Truncated? || r.error.UnsupportedUint?
  {
    var len := ReadUint(s, pos);
    if len.Fail? then Fail(len.error)
    else Ok(Next(pos + len.value.consumed + len.value.value, None))
  }

  /** One entry read at `pos`. Fewer than two header bytes end the loop quietly. A
      mark entry is read in full, its map included; any other entry of a known
      kind is skipped by its declared length, after its timestamp when the second
      header byte announces one. */
  function EntryStep(s: seq<Byte>, pos: nat): (r: Result<Step>)
    ensures r == Ok(End) <==> |s| < pos + 2
    ensures r.Ok? && r.value.Next? ==> pos + 3 <= r.value.pos
    ensures r.Ok? && r.value.Next? && r.value.line.Some? ==>
              && IsMarkHeader(s[pos], s[pos + 1])
              && pos + 8 <= r.value.pos <= |s|
              && IsMarkLetter(r.value.line.value.name as nat)
              && IsAbsolute(r.value.line.value.file)
    ensures r.Fail? && r.error.UnknownEntryType? ==>
              pos + 2 <= |s| && r.error.kind == s[pos] && s[pos] > LastKnownKind
    ensures pos + 2 <= |s| && !IsMarkHeader(s[pos], s[pos + 1]) && s[pos] > LastKnownKind
            && (s[pos + 1] == NoStamp || pos + 2 + StampSize <= |s|) ==>
              r == Fail(UnknownEntryType(s[pos]))
    ensures r.Fail? && r.error.InvalidUtf8? ==> IsMarkHeader(s[pos], s[pos + 1])
  {
    if |s| < pos + 2 then Ok(End)
    else
      var kind, second := s[pos], s[pos + 1];
      if IsMarkHeader(kind, second) then MarkEntry(s, pos + 2)
      else if second == NoStamp then
        if kind > LastKnownKind then Fail(UnknownEntryType(kind))
        else SkipEntry(s, pos + 2)
      else if |s| < pos + 2 + StampSize then Fail(Truncated)
      else if kind > LastKnownKind then Fail(UnknownEntryType(kind))
      else SkipEntry(s, pos + 2 + StampSize)
  }

  /** The whole run from `pos` on: the lines printed, in file order, and the
      failure that stopped it. */
  function DecodeStream(s: seq<Byte>, pos: nat): (t: Transcript)
    ensures |s| < pos + 2 ==> t == Transcript([], None)
    ensures t.lines != [] ==> pos + 8 <= |s|
    decreases |s| - pos
  {
    match EntryStep(s, pos)
    case Fail(e) => Transcript([], Some(e))
    case Ok(End) => Transcript([], None)
    case Ok(Next(next, line)) => Prepend(line.ToSeq(), DecodeStream(s, next))
  }

  /** Every printed line is a lettered mark with an absolute file name, and each
      took at least eight bytes of the file. */
  lemma {:induction false} StreamLines(s: seq<Byte>, pos: nat)
    ensures var t := DecodeStream(s, pos);
      && (forall m :: m in t.lines ==> IsMarkLetter(m.name as nat) && IsAbsolute(m.file))
      && (t.lines != [] ==> pos + 8 * |t.lines| <= |s|)
    decreases |s| - pos
  {
    match EntryStep(s, pos)
    case Fail(_) =>
    case Ok(End) =>
    case Ok(Next(next, line)) =>
      StreamLines(s, next);
  }

  lemma StreamStep(s: seq<Byte>, pos: nat, next: nat, line: Option<MarkLine>)
    requires EntryStep(s, pos) == Ok(Next(next, line))
    ensures DecodeStream(s, pos) == Prepend(line.ToSeq(), DecodeStream(s, next))
  {
  }

  lemma StreamStop(s: seq<Byte>, pos: nat)
    requires EntryStep(s, pos).Fail? || EntryStep(s, pos) == Ok(End)
    ensures DecodeStream(s, pos)
              == Transcript([], if EntryStep(s, pos).Fail? then Some(EntryStep(s, pos).error) else None)
  {
  }

  /** An entry skipped without a timestamp whose declared length runs past the end
      of the file ends the run quietly: the seek is not checked and the next header
      read finds the end. */
  lemma SkipPastEndIsQuiet(s: seq<Byte>, pos: nat)
    requires pos + 2 <= |s| && s[pos + 1] == NoStamp && s[pos] <= LastKnownKind
    requires ReadUint(s, pos + 2).Ok?
    requires |s| < pos + 2 + ReadUint(s, pos + 2).value.consumed + ReadUint(s, pos + 2).value.value + 2
    ensures DecodeStream(s, pos) == Transcript([], None)
  {
    var u := ReadUint(s, pos + 2).value;
    var next := pos + 2 + u.consumed + u.value;
    assert EntryStep(s, pos) == SkipEntry(s, pos + 2);
    StreamStep(s, pos, next, None);
    StreamStop(s, next);
  }

  // ---------------------------------------------------------------------------
  // Entries as Neovim writes them

  /** An entry: a mark with its timestamp and map triples; an entry of a known
      kind without timestamp; or an entry with a timestamp that is not a mark. */
  datatype Entry =
    | MarkEntryOf(kind: Byte, stamp: seq<Byte>, fields: seq<Field>)
    | PlainEntry(kind: Byte, body: seq<Byte>)
    | StampedEntry(kind: Byte, second: Byte, stamp: seq<Byte>, body: seq<Byte>)

  predicate WellFormed(e: Entry) {
    match e
    case MarkEntryOf(kind, stamp, fields) =>
      (kind == GlobalMark || kind == LocalMark) && |stamp| == StampSize
      && AllEncodable(fields) && |fields| < 16
    case PlainEntry(kind, body) =>
      kind <= LastKnownKind && |body| < 0x1_0000_0000
    case StampedEntry(kind, second, stamp, body) =>
      kind <= LastKnownKind && second != NoStamp && !IsMarkHeader(kind, second)
      && |stamp| == StampSize && |body| < 0x1_0000_0000
  }

  /** The entries an encoder of the format writes. */
  type WfEntry = e: Entry | WellFormed(e) witness PlainEntry(0, [])

  function EncodeEntry(e: WfEntry): (b: seq<Byte>)
  {
    match e
    case MarkEntryOf(kind, stamp, fields) =>
      var m := EncodeMark(fields);
      [kind, Uint32Prefix] + stamp + EncodeUint(|m|) + m
    case PlainEntry(kind, body) =>
      [kind, NoStamp] + EncodeUint(|body|) + body
    case StampedEntry(kind, second, stamp, body) =>
      [kind, second] + stamp + EncodeUint(|body|) + body
  }

  function EncodeEntries(es: seq<WfEntry>): seq<Byte>
  {
    if es == [] then [] else EncodeEntry(es[0]) + EncodeEntries(es[1..])
  }

  /** What one entry contributes: the filtered mark for a mark entry, nothing otherwise. */
  function Outcome(e: Entry): Result<Option<MarkLine>> {
    if e.MarkEntryOf? then Emit(Collect(Defaults, e.fields)) else Ok(None)
  }

  /** The run that follows an entry with outcome `out`, given the run of the entries after it. */
  function Continue(out: Result<Option<MarkLine>>, rest: Transcript): Transcript {
    if out.Fail? then Transcript([], Some(out.error)) else Prepend(out.value.ToSeq(), rest)
  }

  /** The run a sequence of entries is meant to produce, independent of bytes:
      each entry's outcome in order, stopping at the first failure. */
  function Expected(es: seq<Entry>): Transcript {
    if es == [] then Transcript([], None) else Continue(Outcome(es[0]), Expected(es[1..]))
  }

  /** The step an entry with outcome `out` makes when it ends at `next`. */
  function Stepped(out: Result<Option<MarkLine>>, next: nat): Result<Step> {
    if out.Fail? then Fail(out.error) else Ok(Next(next, out.value))
  }

  /** The run from an entry whose step is `Stepped(out, next)`. */
  lemma StreamStepped(s: seq<Byte>, pos: nat, out: Result<Option<MarkLine>>, next: nat)
    requires EntryStep(s, pos) == Stepped(out, next)
    ensures DecodeStream(s, pos) == Continue(out, DecodeStream(s, next))
  {
    if out.Fail? {
      StreamStop(s, pos);
    } else {
      StreamStep(s, pos, next, out.value);
    }
  }

  /** The framing every entry shares: a header of at least two bytes, then the
      length's encoding `u`, then the body. */
  lemma Framing(head: seq<Byte>, u: seq<Byte>, body: seq<Byte>, s: seq<Byte>, pos: nat, at: nat)
    requires |head| >= 2 && at == pos + |head|
    requires pos + |head + u + body| <= |s| && s[pos..pos + |head + u + body|] == head + u + body
    ensures at <= |s| && s[pos] == head[0] && s[pos + 1] == head[1]
    ensures at + |u| + |body| <= |s| && s[at..at + |u|] == u && s[at + |u|..at + |u| + |body|] == body
  {
    SliceSplit3(s, pos, head, u, body);
    assert s[pos] == s[pos..pos + |head|][0] && s[pos + 1] == s[pos..pos + |head|][1];
  }

  /** A mark entry whose length and map decode as given ends after its map with
      the filter's verdict on its fields. */
  lemma MarkStep(s: seq<Byte>, pos: nat, total: nat, consumed: nat, fields: Fields, next: nat)
    requires pos + 2 + StampSize <= |s| && IsMarkHeader(s[pos], s[pos + 1])
    requires ReadUint(s, pos + 2 + StampSize) == Ok(Uint(total, consumed))
    requires DecodeMark(s, pos + 2 + StampSize + consumed, total) == Ok(MapRead(fields, total))
    requires next == pos + 2 + StampSize + consumed + total
    ensures EntryStep(s, pos) == Stepped(Emit(fields), next)
  {
    assert EntryStep(s, pos) == MarkEntry(s, pos + 2);
  }

  /** `s` holds the encoding of `e` at `pos`. */
  ghost predicate EncodedAt(s: seq<Byte>, pos: nat, e: WfEntry) {
    pos + |EncodeEntry(e)| <= |s| && s[pos..pos + |EncodeEntry(e)|] == EncodeEntry(e)
  }

  /** The header of a mark entry as the encoder writes it, and its length `u`
      as `read_uint` reads it. */
  lemma MarkLengthFacts(e: WfEntry, u: seq<Byte>, m: seq<Byte>, s: seq<Byte>, pos: nat)
    requires e.MarkEntryOf? && m == EncodeMark(e.fields) && u == EncodeUint(|m|)
    requires var b := [e.kind, Uint32Prefix] + e.stamp + u + m;
      pos + |b| <= |s| && s[pos..pos + |b|] == b
    ensures pos + 2 + StampSize <= |s| && IsMarkHeader(s[pos], s[pos + 1])
    ensures ReadUint(s, pos + 2 + StampSize) == Ok(Uint(|m|, |u|))
  {
    Framing([e.kind, Uint32Prefix] + e.stamp, u, m, s, pos, pos + 2 + StampSize);
    ReadEncodeUint(|m|, s, pos + 2 + StampSize);
  }

  /** The map `m` of a mark entry as the encoder writes it, as the map decoder reads it. */
  lemma MarkMapFacts(e: WfEntry, u: seq<Byte>, m: seq<Byte>, s: seq<Byte>, pos: nat)
    requires e.MarkEntryOf? && m == EncodeMark(e.fields) && u == EncodeUint(|m|)
    requires var b := [e.kind, Uint32Prefix] + e.stamp + u + m;
      pos + |b| <= |s| && s[pos..pos + |b|] == b
    ensures DecodeMark(s, pos + 2 + StampSize + |u|, |m|) == Ok(MapRead(Collect(Defaults, e.fields), |m|))
  {
    Framing([e.kind, Uint32Prefix] + e.stamp, u, m, s, pos, pos + 2 + StampSize);
    DecodeEncodedMark(e.fields, s, pos + 2 + StampSize + |u|);
  }

  /** The bytes of an entry that is skipped, as the encoder writes it: its header
      and its length as `read_uint` reads it. */
  lemma SkipFacts(head: seq<Byte>, u: seq<Byte>, body: seq<Byte>, s: seq<Byte>, pos: nat)
    requires |head| >= 2 && |body| < 0x1_0000_0000 && u == EncodeUint(|body|)
    requires pos + |head + u + body| <= |s| && s[pos..pos + |head + u + body|] == head + u + body
    ensures pos + |head| <= |s| && s[pos] == head[0] && s[pos + 1] == head[1]
    ensures ReadUint(s, pos + |head|) == Ok(Uint(|body|, |u|))
  {
    Framing(head, u, body, s, pos, pos + |head|);
    ReadEncodeUint(|body|, s, pos + |head|);
  }

  /** What a mark entry contributes and how many bytes it takes. */
  lemma MarkShape(e: WfEntry, u: seq<Byte>, m: seq<Byte>)
    requires e.MarkEntryOf? && m == EncodeMark(e.fields) && u == EncodeUint(|m|)
    ensures Outcome(e) == Emit(Collect(Defaults, e.fields)) && |EncodeEntry(e)| == 2 + StampSize + |u| + |m|
  {
  }

  /** A mark entry as the encoder writes it makes the decoder emit the filter's
      verdict on its fields and continue right after it. */
  lemma MarkOnBytes(e: WfEntry, s: seq<Byte>, pos: nat)
    requires e.MarkEntryOf? && EncodedAt(s, pos, e)
    ensures EntryStep(s, pos) == Stepped(Outcome(e), pos + |EncodeEntry(e)|)
  {
    var m := EncodeMark(e.fields);
    var u := EncodeUint(|m|);
    MarkLengthFacts(e, u, m, s, pos);
    MarkMapFacts(e, u, m, s, pos);
    MarkShape(e, u, m);
    MarkStep(s, pos, |m|, |u|, Collect(Defaults, e.fields), pos + |EncodeEntry(e)|);
  }

  /** An entry without timestamp as the encoder writes it is skipped as a whole. */
  lemma PlainOnBytes(e: WfEntry, s: seq<Byte>, pos: nat)
    requires e.PlainEntry? && EncodedAt(s, pos, e)
    ensures EntryStep(s, pos) == Stepped(Outcome(e), pos + |EncodeEntry(e)|)
  {
    SkipFacts([e.kind, NoStamp], EncodeUint(|e.body|), e.body, s, pos);
    assert EntryStep(s, pos) == SkipEntry(s, pos + 2);
  }

  /** A timestamped entry that is not a mark, as the encoder writes it, is skipped as a whole. */
  lemma StampedOnBytes(e: WfEntry, s: seq<Byte>, pos: nat)
    requires e.StampedEntry? && EncodedAt(s, pos, e)
    ensures EntryStep(s, pos) == Stepped(Outcome(e), pos + |EncodeEntry(e)|)
  {
    SkipFacts([e.kind, e.second] + e.stamp, EncodeUint(|e.body|), e.body, s, pos);
    assert EntryStep(s, pos) == SkipEntry(s, pos + 2 + StampSize);
  }

  /** The step the decoder takes on the bytes of one well-formed entry. */
  lemma EntryStepOnBytes(e: WfEntry, s: seq<Byte>, pos: nat)
    requires EncodedAt(s, pos, e)
    ensures EntryStep(s, pos) == Stepped(Outcome(e), pos + |EncodeEntry(e)|)
  {
    if e.MarkEntryOf? {
      MarkOnBytes(e, s, pos);
    } else if e.PlainEntry? {
      PlainOnBytes(e, s, pos);
    } else {
      StampedOnBytes(e, s, pos);
    }
  }

  /** The bytes of a non-empty list of entries: the first entry's, then the rest's. */
  lemma EntriesSplit(es: seq<WfEntry>, s: seq<Byte>, pos: nat) returns (next: nat)
    requires es != []
    requires pos + |EncodeEntries(es)| == |s| && s[pos..] == EncodeEntries(es)
    ensures next == pos + |EncodeEntry(es[0])| && EncodedAt(s, pos, es[0])
    ensures next + |EncodeEntries(es[1..])| == |s| && s[next..] == EncodeEntries(es[1..])
  {
    SuffixSplit(s, pos, EncodeEntry(es[0]), EncodeEntries(es[1..]));
    next := pos + |EncodeEntry(es[0])|;
  }

  lemma ExpectedCons(es: seq<Entry>)
    requires es != []
    ensures Expected(es) == Continue(Outcome(es[0]), Expected(es[1..]))
  {
  }

  /** One encoded entry at `pos`, followed by bytes that decode to `rest`,
      contributes its outcome in front of `rest`. */
  lemma StreamOnBytes(e: WfEntry, s: seq<Byte>, pos: nat, next: nat, rest: Transcript)
    requires EncodedAt(s, pos, e) && next == pos + |EncodeEntry(e)| && DecodeStream(s, next) == rest
    ensures DecodeStream(s, pos) == Continue(Outcome(e), rest)
  {
    EntryStepOnBytes(e, s, pos);
    StreamStepped(s, pos, Outcome(e), next);
  }

  /** The first entry's outcome in front of the run of the rest. */
  lemma StreamCons(es: seq<WfEntry>, s: seq<Byte>, pos: nat, next: nat)
    requires es != [] && next == pos + |EncodeEntry(es[0])| && EncodedAt(s, pos, es[0])
    requires DecodeStream(s, next) == Expected(es[1..])
    ensures DecodeStream(s, pos) == Expected(es)
  {
    StreamOnBytes(es[0], s, pos, next, Expected(es[1..]));
    ExpectedCons(es);
  }

  /** Round trip for the whole file: the bytes the entries encode to make the run
      print exactly the expected lines, in order, and end where the entries' own
      outcomes say: at the end of the file, or at the first failing mark. */
  lemma {:induction false} DecodeEncodedStream(es: seq<WfEntry>, s: seq<Byte>, pos: nat)
    requires pos + |EncodeEntries(es)| == |s| && s[pos..] == EncodeEntries(es)
    ensures DecodeStream(s, pos) == Expected(es)
    decreases |es|, 1
  {
    if es == [] {
      StreamStop(s, pos);
    } else {
      DecodeEncodedCons(es, s, pos);
    }
  }

  /** `DecodeEncodedStream` for a non-empty list of entries. */
  lemma {:induction false} DecodeEncodedCons(es: seq<WfEntry>, s: seq<Byte>, pos: nat)
    requires es != [] && pos + |EncodeEntries(es)| == |s| && s[pos..] == EncodeEntries(es)
    ensures DecodeStream(s, pos) == Expected(es)
    decreases |es|, 0
  {
    var next := EntriesSplit(es, s, pos);
    DecodeEncodedStream(es[1..], s, next);
    StreamCons(es, s, pos, next);
  }

  // ---------------------------------------------------------------------------
  // The loop over the reader

  /** The map and the filter of a mark entry, on the reader. */
  method ReadMarkBody(r: Reader, total: nat) returns (res: Result<Step>)
    requires r.chunk > 0
    modifies r
    ensures res == MarkBody(r.data, old(r.pos), total)
    ensures res.Ok? ==> r.pos == res.value.pos
  {
    var mark :- DecodeMarkFrom(r, total);
    var line :- Emit(mark.fields);
    return Ok(Next(r.pos, line));
  }

  /** The mark branch of `main`'s loop after the header. */
  method ReadMarkEntry(r: Reader) returns (res: Result<Step>)
    requires r.chunk > 0
    modifies r
    ensures res == MarkEntry(r.data, old(r.pos))
    ensures res.Ok? ==> r.pos == res.value.pos
  {
    var stamp := new Byte[StampSize];
    var ok := ReadFully(r, stamp);
    if !ok {
      return Fail(Truncated);
    }
    var len :- ReadUintFrom(r);
    res := ReadMarkBody(r, len.value);
  }

  /** The length of a skipped entry and the seek past its data. */
  method SkipEntryOn(r: Reader) returns (res: Result<Step>)
    requires r.chunk > 0
    modifies r
    ensures res == SkipEntry(r.data, old(r.pos))
    ensures res.Ok? ==> r.pos == res.value.pos
  {
    var len :- ReadUintFrom(r);
    r.SeekRelative(len.value);
    return Ok(Next(r.pos, None));
  }

  /** One turn of `main`'s loop on the reader: the header, then the entry's
      branch. On `Next` the reader is at the next entry. */
  method ReadEntry(r: Reader) returns (res: Result<Step>)
    requires r.chunk > 0
    modifies r
    ensures res == EntryStep(r.data, old(r.pos))
    ensures res.Ok? && res.value.Next? ==> r.pos == res.value.pos
  {
    ghost var s, at := r.data, r.pos;
    var header := new Byte[2];
    var ok := ReadFully(r, header);
    if !ok {
      return Ok(End);
    }
    var kind, second := header[0], header[1];
    assert kind == s[at] && second == s[at + 1];
    if IsMarkHeader(kind, second) {
      res := ReadMarkEntry(r);
    } else if second == NoStamp {
      if kind > LastKnownKind {
        return Fail(UnknownEntryType(kind));
      }
      res := SkipEntryOn(r);
    } else {
      var stamp := new Byte[StampSize];
      ok := ReadFully(r, stamp);
      if !ok {
        return Fail(Truncated);
      }
      if kind > LastKnownKind {
        return Fail(UnknownEntryType(kind));
      }
      res := SkipEntryOn(r);
    }
  }

  /** `main` after the file is opened: entries are read until the header read
      finds the end of the file, printing each mark that passes the filter; the
      first failure ends the run. The result is the run `DecodeStream` describes. */
  method DumpMarks(data: seq<Byte>, chunk: nat) returns (lines: seq<MarkLine>, failure: Option<Error>)
    requires chunk > 0
    ensures Transcript(lines, failure) == DecodeStream(data, 0)
  {
    var r := new Reader(data, chunk);
    lines := [];
    while true
      invariant r.data == data && r.chunk == chunk
      invariant Prepend(lines, DecodeStream(data, r.pos)) == DecodeStream(data, 0)
      decreases |data| - r.pos
    {
      ghost var at := r.pos;
      var step := ReadEntry(r);
      match step
      case Fail(e) =>
        StreamStop(data, at);
        return lines, Some(e);
      case Ok(End) =>
        StreamStop(data, at);
        return lines, None;
      case Ok(Next(next, line)) =>
        StreamStep(data, at, next, line);
        PrependTwice(lines, line.ToSeq(), DecodeStream(data, next));
        lines := lines + line.ToSeq();
    }
  }
}
