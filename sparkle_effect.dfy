/** Click sparkles: each click appends a sparkle at the pointer, and a timer
    later removes the sparkles carrying that click's id. The timer and the
    random id are not modelled: removal is an explicit operation taking the
    id, and ids are values supplied by the caller. */
module SparkleEffect {
  import opened Filtering

  /** Sparkle ids are JavaScript numbers (`Date.now() + Math.random()`). */
  type SparkleId = real

  datatype Sparkle = Sparkle(id: SparkleId, x: real, y: real)

  /** One rendered sparkle: its React key and its fixed position. */
  datatype SparkleView = SparkleView(key: SparkleId, left: real, top: real)

  /** No sparkle in `s` carries `id`. */
  predicate FreshId(s: seq<Sparkle>, id: SparkleId)
  {
    forall k :: 0 <= k < |s| ==> s[k].id != id
  }

  predicate DistinctIds(s: seq<Sparkle>)
  {
    forall k, l :: 0 <= k < l < |s| ==> s[k].id != s[l].id
  }

  /** The test `s => s.id !== id`. */
  function Others(id: SparkleId): Sparkle -> bool
  {
    (sp: Sparkle) => sp.id != id
  }

  /** `s.filter(sp => sp.id !== id)`. */
  function Without(s: seq<Sparkle>, id: SparkleId): (r: seq<Sparkle>)
    ensures |r| <= |s|
    ensures forall sp :: sp in r <==> sp in s && sp.id != id
  {
    var r := Filter(Others(id), s);
    assert forall sp :: sp in r <==> sp in s && sp.id != id by {
      forall sp ensures sp in r <==> sp in s && sp.id != id {
        FilterMembers(Others(id), s, sp);
      }
    }
    r
  }

  /** Removal keeps the survivors in their original order: it distributes
      over concatenation. */
  lemma WithoutAppend(a: seq<Sparkle>, b: seq<Sparkle>, id: SparkleId)
    ensures Without(a + b, id) == Without(a, id) + Without(b, id)
  {
    FilterAppend(Others(id), a, b);
  }

  /** Removing an id no sparkle carries changes nothing. */
  lemma WithoutAbsent(s: seq<Sparkle>, id: SparkleId)
    requires FreshId(s, id)
    ensures Without(s, id) == s
  {
    FilterAll(Others(id), s);
  }

  /** A click with a fresh id followed by that id's removal restores the
      list. */
  lemma AppendThenRemove(s: seq<Sparkle>, sp: Sparkle)
    requires FreshId(s, sp.id)
    ensures Without(s + [sp], sp.id) == s
  {
    FilterSnoc(Others(sp.id), s, sp);
    WithoutAbsent(s, sp.id);
  }

  /** Removal shortens the list iff some sparkle carries the id. */
  lemma WithoutLength(s: seq<Sparkle>, id: SparkleId)
    ensures |Without(s, id)| == |s| <==> FreshId(s, id)
  {
    FilterLength(Others(id), s);
  }

  /** Removal never leaves two sparkles with one id. */
  lemma {:induction false} WithoutKeepsDistinct(s: seq<Sparkle>, id: SparkleId)
    ensures DistinctIds(s) ==> DistinctIds(Without(s, id))
  {
    if DistinctIds(s) && s != [] {
      var init, last := s[..|s| - 1], s[|s| - 1];
      assert s == init + [last];
      assert DistinctIds(init) by {
        forall k, l | 0 <= k < l < |init| ensures init[k].id != init[l].id {
          assert init[k] == s[k] && init[l] == s[l];
        }
      }
      WithoutKeepsDistinct(init, id);
      FilterSnoc(Others(id), init, last);
      var kept := Without(init, id);
      assert FreshId(kept, last.id) by {
        forall k | 0 <= k < |kept| ensures kept[k].id != last.id {
          assert kept[k] in init;
          var m :| 0 <= m < |init| && init[m] == kept[k];
          assert s[m] == kept[k];
        }
      }
    }
  }

  /** One rendered element per sparkle, in list order, keyed by its id and
      placed at its click position. */
  function Render(s: seq<Sparkle>): (v: seq<SparkleView>)
    ensures |v| == |s|
    ensures forall k :: 0 <= k < |v| ==> v[k].key == s[k].id && v[k].left == s[k].x && v[k].top == s[k].y
    ensures DistinctIds(s) ==> forall k, l :: 0 <= k < l < |v| ==> v[k].key != v[l].key
  {
    seq(|s|, k requires 0 <= k < |s| => SparkleView(s[k].id, s[k].x, s[k].y))
  }

  /** The component: the sparkles currently on screen. */
  class Sparkles {
    var sparkles: seq<Sparkle>

    constructor ()
      ensures sparkles == []
    {
      sparkles := [];
    }

    /** A click at `(clientX, clientY)`: append one sparkle with the id the
        handler drew. */
    method HandleClick(id: SparkleId, clientX: real, clientY: real)
      modifies this
      ensures sparkles == old(sparkles) + [Sparkle(id, clientX, clientY)]
      ensures FreshId(old(sparkles), id) && DistinctIds(old(sparkles)) ==> DistinctIds(sparkles)
    {
      sparkles := sparkles + [Sparkle(id, clientX, clientY)];
    }

    /** The timer for click `id` fires: drop every sparkle with that id. */
    method Expire(id: SparkleId)
      modifies this
      ensures sparkles == Without(old(sparkles), id)
      ensures forall k :: 0 <= k < |sparkles| ==> sparkles[k].id != id
      ensures DistinctIds(old(sparkles)) ==> DistinctIds(sparkles)
    {
      WithoutKeepsDistinct(sparkles, id);
      sparkles := Without(sparkles, id);
    }
  }
}
