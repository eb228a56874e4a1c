/** Bytes as the decoder reads them from the file. */
module Bytes {
  newtype Byte = b: int | 0 <= b < 0x100

  /** A slice of `s` equal to `a + b` splits into a slice equal to `a` and one equal to `b`. */
  lemma SliceSplit(s: seq<Byte>, pos: nat, a: seq<Byte>, b: seq<Byte>)
    requires pos + |a| + |b| <= |s| && s[pos..pos + |a| + |b|] == a + b
    ensures s[pos..pos + |a|] == a && s[pos + |a|..pos + |a| + |b|] == b
  {
    assert s[pos..pos + |a|] == (a + b)[..|a|];
    assert s[pos + |a|..pos + |a| + |b|] == (a + b)[|a|..];
  }

  /** A suffix of `s` equal to `a + b` splits into a slice equal to `a` and a suffix equal to `b`. */
  lemma SuffixSplit(s: seq<Byte>, pos: nat, a: seq<Byte>, b: seq<Byte>)
    requires pos + |a + b| == |s| && s[pos..] == a + b
    ensures pos + |a| + |b| == |s| && s[pos..pos + |a|] == a && s[pos + |a|..] == b
  {
    assert s[pos..pos + |a|] == (a + b)[..|a|];
    assert s[pos + |a|..] == (a + b)[|a|..];
  }

  /** A slice of `s` equal to `a + b + c` splits into slices equal to each part. */
  lemma SliceSplit3(s: seq<Byte>, pos: nat, a: seq<Byte>, b: seq<Byte>, c: seq<Byte>)
    requires pos + |a + b + c| <= |s| && s[pos..pos + |a + b + c|] == a + b + c
    ensures pos + |a| + |b| + |c| <= |s| && s[pos..pos + |a|] == a
    ensures s[pos + |a|..pos + |a| + |b|] == b
    ensures s[pos + |a| + |b|..pos + |a| + |b| + |c|] == c
  {
    assert a + b + c == a + (b + c);
    SliceSplit(s, pos, a, b + c);
    SliceSplit(s, pos + |a|, b, c);
  }
}

/** The failures of the ShaDa mark decoder. Every one of them ends the run of the
    program (a `panic!` or a failed `expect`); here they are values. */
module Errors {
  import opened Bytes

  datatype Error =
    | Truncated                    // the stream ended inside a read that had to complete
    | UnsupportedUint(prefix: Byte) // read_uint met the uint 64, signed or a reserved prefix
    | UnknownEntryType(kind: Byte)  // an entry header whose kind byte is above 11
    | UnexpectedKey(key: Byte)      // a mark map key other than l, c, n and f
    | InvalidUtf8                  // a printable mark whose file name is not UTF-8

  datatype Option<+T> = None | Some(value: T) {
    /** The value, or `default` when there is none. */
    function GetOr(default: T): T {
      match this
      case Some(v) => v
      case None => default
    }

    /** The value as a sequence of zero or one element. */
    function ToSeq(): (s: seq<T>)
      ensures |s| <= 1
    {
      match this
      case Some(v) => [v]
      case None => []
    }
  }

  datatype Result<+T> = Ok(value: T) | Fail(error: Error) {
    predicate IsFailure() {
      Fail?
    }

    function PropagateFailure<U>(): Result<U>
      requires Fail?
    {
      Fail(error)
    }

    function Extract(): T
      requires Ok?
    {
      value
    }
  }
}
