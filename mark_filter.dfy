/** The filter applied to a decoded mark before anything is printed. */
module MarkFilter {
  import opened Bytes
  import opened Errors
  import opened Utf8
  import opened MarkMap

  const Slash: Byte := 0x2F // '/'

  /** A printed line: the mark name as a character, the line number and the file name. */
  datatype MarkLine = MarkLine(name: char, line: nat, file: seq<Byte>)

  /** The mark name is an ASCII letter, [A-Za-z]. */
  predicate IsMarkLetter(n: nat) {
    0x41 <= n <= 0x5A || 0x61 <= n <= 0x7A
  }

  /** The file name is absolute: it is not empty and starts with '/'. */
  predicate IsAbsolute(p: seq<Byte>) {
    |p| > 0 && p[0] == Slash
  }

  /** The filter after a mark's map: a mark named by a letter with an absolute
      file name yields a line, other marks yield nothing, and a qualifying file
      name that is not UTF-8 is a failure. */
  function Emit(f: Fields): (r: Result<Option<MarkLine>>)
    ensures r.Ok? && r.value.None? <==> !(IsMarkLetter(f.name) && IsAbsolute(f.file))
    ensures r.Fail? ==> r.error == InvalidUtf8 && !ValidUtf8(f.file)
    ensures r.Ok? && r.value.Some? ==>
              var m := r.value.value;
              && ('A' <= m.name <= 'Z' || 'a' <= m.name <= 'z') && m.name as nat == f.name
              && m.line == f.line && m.file == f.file
              && m.file[0] == Slash && ValidUtf8(m.file)
  {
    if IsMarkLetter(f.name) && IsAbsolute(f.file) then
      if ValidUtf8(f.file) then Ok(Some(MarkLine(f.name as char, f.line, f.file)))
      else Fail(InvalidUtf8)
    else Ok(None)
  }

  /** A mark named 'A' with file "/home/u/file" is printed; the same mark with
      "relative/path", or named '1', is not. */
  lemma EmitExamples(line: nat)
    ensures Emit(Fields(line, 0x41, [0x2F, 0x68, 0x6F, 0x6D, 0x65, 0x2F, 0x75, 0x2F, 0x66, 0x69, 0x6C, 0x65]))
              == Ok(Some(MarkLine('A', line, [0x2F, 0x68, 0x6F, 0x6D, 0x65, 0x2F, 0x75, 0x2F, 0x66, 0x69, 0x6C, 0x65])))
    ensures Emit(Fields(line, 0x41, [0x72, 0x65, 0x6C, 0x2F, 0x70])) == Ok(None)
    ensures Emit(Fields(line, 0x31, [0x2F, 0x68, 0x6F, 0x6D, 0x65])) == Ok(None)
  {
    AsciiIsUtf8([0x2F, 0x68, 0x6F, 0x6D, 0x65, 0x2F, 0x75, 0x2F, 0x66, 0x69, 0x6C, 0x65]);
  }
}
