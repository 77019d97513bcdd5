/** Shapes shared by the other modules. */
module Basics {

  datatype Option<+T> = None | Some(value: T) {
    function GetOr(default: T): T {
      match this
      case Some(v) => v
      case None => default
    }
  }

  /** An optional member of a JSON object: a member that is left out and one that is `null` are written
      differently, so two objects that differ only in this are not the same text. */
  datatype Member<+T> = Absent | Null | Is(value: T)

  /** What every call to the backend resolves to; the request function never throws. */
  datatype ApiResult<+T> = Ok(data: T) | Failed(code: string)

  lemma FrontAndLast<T>(s: seq<T>)
    requires s != []
    ensures s == s[..|s| - 1] + [s[|s| - 1]]
  {
  }

  lemma UpdateBeforeLast<T>(s: seq<T>, i: nat, x: T)
    requires i + 1 < |s|
    ensures s[i := x] == s[..|s| - 1][i := x] + [s[|s| - 1]]
  {
  }

  lemma UpdateLast<T>(s: seq<T>, x: T)
    requires s != []
    ensures s[|s| - 1 := x] == s[..|s| - 1] + [x]
  {
  }

  lemma UpdateWithin<T>(s: seq<T>, i: nat, j: nat, x: T)
    requires i < j <= |s|
    ensures s[i := x][..j] == s[..j][i := x]
  {
  }

  lemma FirstAndRest<T>(s: seq<T>)
    requires s != []
    ensures s == [s[0]] + s[1..]
  {
  }

  lemma RestOfConcat<T>(a: seq<T>, b: seq<T>)
    requires a != []
    ensures (a + b)[0] == a[0] && (a + b)[1..] == a[1..] + b
  {
  }

  lemma Associated<T>(a: seq<T>, b: seq<T>, c: seq<T>)
    ensures a + b + c == a + (b + c)
  {
  }

  lemma Reassociated<T>(a: seq<T>, b: seq<T>, c: seq<T>, d: seq<T>)
    ensures a + b + c + d == a + (b + c + d)
  {
  }

  lemma SameFront<T>(a: seq<T>, b: seq<T>, tail: seq<T>)
    requires a + tail == b + tail
    ensures a == b
  {
    assert |a| == |a + tail| - |tail| == |b|;
    assert forall i :: 0 <= i < |a| ==> a[i] == (a + tail)[i] == (b + tail)[i] == b[i];
  }

  lemma NoneAndOne<T>(x: T)
    ensures [] + [x] == [x]
  {
  }

  lemma OneAndOne<T>(x: T, y: T)
    ensures [x] + [y] == [x, y]
  {
  }

  lemma OnlyReplaced<T>(x: T, y: T)
    ensures [x][..0] + [y] == [y]
  {
  }

  lemma CutInTwo<T>(s: seq<T>, k: nat)
    requires k <= |s|
    ensures s == s[..k] + s[k..]
  {
  }
}
