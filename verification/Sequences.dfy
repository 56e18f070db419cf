/** Options, and the few facts about sequences of sequences that the queues of the driver need. */
module Sequences {

  datatype Option<T> = None | Some(value: T)

  function Concat<T>(ss: seq<seq<T>>): seq<T> {
    if ss == [] then [] else ss[0] + Concat(ss[1..])
  }

  function Min(a: nat, b: nat): nat {
    if a <= b then a else b
  }

  lemma {:induction false} ConcatAppend<T>(ss: seq<seq<T>>, ts: seq<seq<T>>)
    ensures Concat(ss + ts) == Concat(ss) + Concat(ts)
  {
    if ss == [] {
      assert ss + ts == ts;
    } else {
      assert (ss + ts)[0] == ss[0] && (ss + ts)[1..] == ss[1..] + ts;
      ConcatAppend(ss[1..], ts);
    }
  }

  lemma ConcatSingle<T>(s: seq<T>)
    ensures Concat([s]) == s
  {
    assert [s][1..] == [];
  }

  lemma ConcatSnoc<T>(ss: seq<seq<T>>, s: seq<T>)
    ensures Concat(ss + [s]) == Concat(ss) + s
  {
    ConcatAppend(ss, [s]);
    ConcatSingle(s);
  }

  /** Cutting a sequence of sequences at k cuts the concatenation after the first k. */
  lemma ConcatCut<T>(ss: seq<seq<T>>, k: nat)
    requires k <= |ss|
    ensures |Concat(ss[..k])| <= |Concat(ss)|
    ensures Concat(ss)[..|Concat(ss[..k])|] == Concat(ss[..k])
    ensures Concat(ss)[|Concat(ss[..k])|..] == Concat(ss[k..])
  {
    assert ss == ss[..k] + ss[k..];
    ConcatAppend(ss[..k], ss[k..]);
  }

  lemma DropDrop<T>(s: seq<T>, i: nat, k: nat)
    requires i + k <= |s|
    ensures s[i..][k..] == s[i + k..]
  {
  }
}
