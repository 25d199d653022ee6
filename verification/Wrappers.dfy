/** Failure-compatible results and a partial lookup, shared by every module. */
module Wrappers {

  datatype Option<+T> = None | Some(value: T)

  datatype Result<+T, +E> = Ok(value: T) | Err(error: E)

  /** Python's `mapping.get(key)`. */
  function Lookup<K, V>(m: map<K, V>, key: K): Option<V> {
    if key in m then Some(m[key]) else None
  }

  function Flat<T>(ss: seq<seq<T>>): seq<T> {
    if |ss| == 0 then [] else Flat(ss[..|ss| - 1]) + ss[|ss| - 1]
  }

  lemma FlatGrows<T>(ss: seq<seq<T>>, s: seq<T>)
    ensures Flat(ss + [s]) == Flat(ss) + s
  {
    assert (ss + [s])[..|ss|] == ss;
  }

  lemma {:induction false} FlatStarts<T>(s: seq<T>, ss: seq<seq<T>>)
    ensures Flat([s] + ss) == s + Flat(ss)
    decreases |ss|
  {
    if |ss| == 0 {
      assert ([s] + ss)[..0] == [];
    } else {
      FlatStarts(s, ss[..|ss| - 1]);
      assert ([s] + ss)[..|ss|] == [s] + ss[..|ss| - 1];
    }
  }

  /** No element occurs twice. */
  ghost predicate Distinct<T>(s: seq<T>) {
    forall i, j :: 0 <= i < j < |s| ==> s[i] != s[j]
  }
}
