/** Result and option types shared by the model, and the byte type of Go's []byte. */
module Common {

  datatype Option<+T> = None | Some(value: T)

  /** A Go `(T, error)` pair: either a value or the error's message. */
  datatype Result<+T> = Success(value: T) | Failure(error: string)

  /** One element of a Go `[]byte`. */
  type byte = x: int | 0 <= x < 256

  function Min(a: int, b: int): int { if a <= b then a else b }

  /** Concatenation is associative; stated once so that proofs about long literals need not re-derive it element by element. */
  lemma AppendAssoc<T>(a: seq<T>, b: seq<T>, c: seq<T>)
    ensures a + (b + c) == a + b + c
  {
    assert forall i :: 0 <= i < |a| + |b| + |c| ==> (a + (b + c))[i] == (a + b + c)[i];
  }

  /** A non-empty sequence is its front followed by its last element. */
  lemma FrontLast<T>(s: seq<T>)
    requires |s| > 0
    ensures s[..|s| - 1] + [s[|s| - 1]] == s
  {
    assert forall i :: 0 <= i < |s| ==> (s[..|s| - 1] + [s[|s| - 1]])[i] == s[i];
  }

  /** The elements between a first and a last one sit one place further on. */
  lemma MiddleAt<T>(first: T, mid: seq<T>, last: T, j: nat)
    requires 1 <= j <= |mid|
    ensures ([first] + mid + [last])[j] == mid[j - 1]
  {
    assert ([first] + mid + [last])[j] == ([first] + mid)[j];
  }
}
