/** Shared value types: optional values, results, bytes and the I/O error
    that the standard library's file and process calls report. */
module Base {

  datatype Option<+T> = None | Some(value: T) {
    /** `unwrap_or`: the held value, or `default` when there is none. */
    function GetOr(default: T): T {
      match this
      case Some(v) => v
      case None => default
    }
  }

  datatype Result<+T, +E> = Ok(value: T) | Err(error: E)

  newtype byte = b: int | 0 <= b < 256

  /** The kinds of `std::io::ErrorKind` the model distinguishes. */
  datatype IoErrorKind = NotFound | InvalidData | PermissionDenied | Other

  /** An `std::io::Error`; `message` is what its `Display` prints. */
  datatype IoError = IoError(kind: IoErrorKind, message: string)

  /** Concatenation of a sequence of byte chunks, in order. */
  function Concat(chunks: seq<seq<byte>>): (r: seq<byte>)
  {
    if chunks == [] then [] else Concat(chunks[..|chunks| - 1]) + chunks[|chunks| - 1]
  }

  /** Total length of a sequence of byte chunks. */
  function TotalLength(chunks: seq<seq<byte>>): nat
  {
    if chunks == [] then 0 else TotalLength(chunks[..|chunks| - 1]) + |chunks[|chunks| - 1]|
  }

  lemma {:induction false} ConcatLength(chunks: seq<seq<byte>>)
    ensures |Concat(chunks)| == TotalLength(chunks)
  {
    if chunks != [] {
      ConcatLength(chunks[..|chunks| - 1]);
    }
  }

  lemma {:induction false} TotalLengthSnoc(chunks: seq<seq<byte>>, c: seq<byte>)
    ensures TotalLength(chunks + [c]) == TotalLength(chunks) + |c|
  {
    assert (chunks + [c])[..|chunks|] == chunks;
  }

  /** Progress values are non-decreasing along a sequence. */
  ghost predicate NonDecreasing(s: seq<real>)
  {
    forall i, j :: 0 <= i < j < |s| ==> s[i] <= s[j]
  }

  /** Two non-decreasing runs, the first nowhere above the second, make one. */
  lemma {:induction false} NonDecreasingAppend(a: seq<real>, b: seq<real>)
    requires NonDecreasing(a) && NonDecreasing(b)
    requires forall i, j :: 0 <= i < |a| && 0 <= j < |b| ==> a[i] <= b[j]
    ensures NonDecreasing(a + b)
  {
    forall i, j | 0 <= i < j < |a + b| ensures (a + b)[i] <= (a + b)[j] {
      if j < |a| {
        assert (a + b)[i] == a[i] && (a + b)[j] == a[j];
      } else if i >= |a| {
        assert (a + b)[i] == b[i - |a|] && (a + b)[j] == b[j - |a|];
      } else {
        assert (a + b)[i] == a[i] && (a + b)[j] == b[j - |a|];
      }
    }
  }
}
