/** How many elements sets of numbers have. */
module Counting {

  function Range(lo: nat, hi: nat): (r: set<nat>)
    ensures forall p :: p in r <==> lo <= p < hi
    decreases hi
  {
    if lo >= hi then {} else Range(lo, hi - 1) + {hi - 1}
  }

  lemma RangeNext(lo: nat, hi: nat)
    requires lo <= hi
    ensures Range(lo, hi + 1) == Range(lo, hi) + {hi}
  {
  }

  lemma {:induction false} RangeSize(lo: nat, hi: nat)
    requires lo <= hi
    ensures |Range(lo, hi)| == hi - lo
  {
    hide Range;
    if lo < hi {
      RangeSize(lo, hi - 1);
      RangeNext(lo, hi - 1);
    } else {
      assert Range(lo, hi) == {};
    }
  }

  lemma SubsetSize<T>(a: set<T>, b: set<T>)
    requires a <= b
    ensures |a| <= |b| && (a != b ==> |a| < |b|)
  {
    assert b == a + (b - a);
    if a != b {
      assert b - a != {};
    }
  }

  /** A map that takes no two keys to one value has as many values as keys. */
  lemma {:induction false} ImageSize(m: map<nat, nat>)
    requires forall a, b :: a in m && b in m && m[a] == m[b] ==> a == b
    ensures |m.Keys| == |m.Values|
    decreases |m.Keys|
  {
    if m.Keys != {} {
      var k :| k in m.Keys;
      var m' := m - {k};
      assert m'.Keys == m.Keys - {k};
      ImageSize(m');
      forall v | v in m.Values ensures v in m'.Values + {m[k]} {
        var a :| a in m && m[a] == v;
        if a != k {
          assert a in m' && m'[a] == v;
        }
      }
      forall v | v in m'.Values ensures v in m.Values && v != m[k] {
        var a :| a in m' && m'[a] == v;
      }
      assert m.Values == m'.Values + {m[k]};
    }
  }
}
