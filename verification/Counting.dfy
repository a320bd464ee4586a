/** How many entries of a table satisfy a condition, and how that changes when one entry does. */
module Counting {

  function One(b: bool): nat { if b then 1 else 0 }

  ghost function Those<T>(table: map<nat, T>, p: T -> bool): set<nat> { set t | t in table && p(table[t]) }

  lemma OthersStay<T>(table: map<nat, T>, p: T -> bool, t: nat, x: T)
    ensures Those(table[t := x], p) - {t} == Those(table, p) - {t}
  {
  }

  lemma WithOrWithout(ids: set<nat>, t: nat)
    ensures |ids| == |ids - {t}| + One(t in ids)
  {
    if t in ids {
      assert ids == ids - {t} + {t};
    } else {
      assert ids == ids - {t};
    }
  }

  /** The entry of `t` replaced by `x`, or added. */
  lemma Updated<T>(table: map<nat, T>, p: T -> bool, t: nat, x: T)
    ensures |Those(table[t := x], p)| + One(t in table && p(table[t])) == |Those(table, p)| + One(p(x))
  {
    OthersStay(table, p, t, x);
    WithOrWithout(Those(table, p), t);
    WithOrWithout(Those(table[t := x], p), t);
  }

  lemma Present<T>(table: map<nat, T>, p: T -> bool, t: nat)
    requires t in table && p(table[t])
    ensures |Those(table, p)| > 0
  {
    assert t in Those(table, p);
  }
}
