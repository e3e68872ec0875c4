/** Result and option types shared by the models. */
module Wrappers {

  datatype Option<+T> = None | Some(value: T)

  datatype Result<+T, +E> = Ok(value: T) | Err(error: E)

  function GetOr<T>(o: Option<T>, default: T): T {
    if o.Some? then o.value else default
  }

  function MapGet<K, V>(m: map<K, V>, k: K): Option<V> {
    if k in m then Some(m[k]) else None
  }

  /** The last value of a sequence of options. */
  function LastSome<T>(ws: seq<Option<T>>): Option<T> {
    if ws == [] then None
    else if ws[|ws| - 1].Some? then ws[|ws| - 1]
    else LastSome(ws[..|ws| - 1])
  }

  lemma {:induction false} LastSomeAt<T>(ws: seq<Option<T>>) returns (j: nat)
    requires LastSome(ws).Some?
    ensures j < |ws| && ws[j] == LastSome(ws) && forall l :: j < l < |ws| ==> ws[l].None?
  {
    j := |ws| - 1;
    if ws[j].None? { j := LastSomeAt(ws[..j]); }
  }

  lemma {:induction false} LastSomeIs<T>(ws: seq<Option<T>>, i: nat)
    requires i < |ws| && ws[i].Some?
    ensures LastSome(ws).Some?
    ensures (forall l :: i < l < |ws| ==> ws[l].None?) ==> LastSome(ws) == ws[i]
  {
    if i < |ws| - 1 { LastSomeIs(ws[..|ws| - 1], i); }
  }
}
