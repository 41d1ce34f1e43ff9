/**
 * The request side of the scan endpoint: the numeric body parameters are
 * clamped into fixed ranges (with defaults for anything that is not a finite
 * number), the mode decides what is crawled and whether highlights are taken,
 * and the highlight step collects distinct offending elements up to a limit.
 * JSON numbers may be fractional, so the parameters are reals.
 */
module ScanRequest {
  import Crawl

  /** A numeric body field: a finite JSON number, or anything else (absent, not a number, overflowed to infinity). */
  datatype Param = Finite(value: real) | NotFinite

  datatype Mode = Single | Full | Discover

  function Clamp(lo: real, hi: real, x: real): real
    requires lo <= hi
  {
    if x < lo then lo else if x > hi then hi else x
  }

  /** `Math.max(lo, Math.min(value, hi))` for a finite number, `fallback` otherwise. */
  function Setting(p: Param, lo: real, hi: real, fallback: real): (r: real)
    requires lo <= fallback <= hi
    ensures lo <= r <= hi
    ensures p.NotFinite? ==> r == fallback
    ensures p.Finite? && lo <= p.value <= hi ==> r == p.value
    ensures p.Finite? && p.value < lo ==> r == lo
    ensures p.Finite? && p.value > hi ==> r == hi
  {
    if p.Finite? then Clamp(lo, hi, p.value) else fallback
  }

  /** The page budget of a full scan: within [1, 50], 20 by default. */
  function MaxPages(p: Param): (r: real)
    ensures 1.0 <= r <= 50.0
    ensures p.NotFinite? ==> r == 20.0
    ensures p.Finite? && 1.0 <= p.value <= 50.0 ==> r == p.value
  {
    Setting(p, 1.0, 50.0, 20.0)
  }

  /** The depth budget of a full scan: within [0, 3], 2 by default. */
  function MaxDepth(p: Param): (r: real)
    ensures 0.0 <= r <= 3.0
    ensures p.NotFinite? ==> r == 2.0
    ensures p.Finite? && 0.0 <= p.value <= 3.0 ==> r == p.value
  {
    Setting(p, 0.0, 3.0, 2.0)
  }

  /** The number of elements to highlight: within [0, 10], 5 by default. */
  function HighlightLimit(p: Param): (r: real)
    ensures 0.0 <= r <= 10.0
    ensures p.NotFinite? ==> r == 5.0
    ensures p.Finite? && 0.0 <= p.value <= 10.0 ==> r == p.value
  {
    Setting(p, 0.0, 10.0, 5.0)
  }

  /** What a valid request does: a discovery crawl, or a scan of one page or of a crawl plus optional highlights. */
  datatype Plan =
    | DiscoverOnly(maxPages: real, maxDepth: real)
    | ScanPages(crawl: bool, maxPages: real, maxDepth: real, highlight: bool)

  /** The work `POST` plans for a valid URL; discovery uses its own fixed budgets of 40 pages and depth 3. */
  function PlanFor(mode: Mode, maxPages: Param, maxDepth: Param, highlightLimit: Param): (plan: Plan)
    ensures mode == Discover <==> plan.DiscoverOnly?
    ensures plan.DiscoverOnly? ==> plan.maxPages == 40.0 && plan.maxDepth == 3.0
    ensures plan.ScanPages? ==>
              && (plan.crawl <==> mode == Full)
              && plan.maxPages == MaxPages(maxPages) && plan.maxDepth == MaxDepth(maxDepth)
              && 1.0 <= plan.maxPages <= 50.0 && 0.0 <= plan.maxDepth <= 3.0
              && (plan.highlight <==> HighlightLimit(highlightLimit) > 0.0)
  {
    if mode == Discover then DiscoverOnly(40.0, 3.0)
    else ScanPages(mode == Full, MaxPages(maxPages), MaxDepth(maxDepth), HighlightLimit(highlightLimit) > 0.0)
  }

  // ---- highlights -----------------------------------------------------------

  /**
   * `addElements(elements)` applied to `highlights`: elements are taken in
   * order, each one not already present is appended, and the walk stops as
   * soon as the list holds `limit` or more. Elements compare by identity,
   * which a value of `T` stands for.
   */
  function Added<T(==)>(highlights: seq<T>, elements: seq<T>, limit: real): seq<T>
    decreases |elements|
  {
    if elements == [] || |highlights| as real >= limit then highlights
    else Added(if elements[0] in highlights then highlights else highlights + [elements[0]], elements[1..], limit)
  }

  method AddElements<T(==)>(highlights: seq<T>, elements: seq<T>, limit: real) returns (h: seq<T>)
    ensures h == Added(highlights, elements, limit)
  {
    h := highlights;
    for i := 0 to |elements|
      invariant Added(h, elements[i..], limit) == Added(highlights, elements, limit)
    {
      if |h| as real >= limit {
        break;
      }
      assert elements[i..][1..] == elements[i + 1..];
      if elements[i] !in h {
        h := h + [elements[i]];
      }
    }
  }

  /**
   * The existing highlights stay in front; distinctness is kept; everything
   * added comes from `elements`; at most one element is added once the list
   * has reached the limit's integer part; and the walk only stops early when
   * the limit is reached.
   */
  lemma {:induction false} AddedSpec<T>(highlights: seq<T>, elements: seq<T>, limit: real)
    ensures var r := Added(highlights, elements, limit);
            && highlights <= r
            && (Crawl.NoDuplicates(highlights) ==> Crawl.NoDuplicates(r))
            && (forall x :: x in r ==> x in highlights || x in elements)
            && (r == highlights || (|r| - 1) as real < limit)
            && ((forall x :: x in elements ==> x in r) || |r| as real >= limit)
    decreases |elements|
  {
    if elements != [] && |highlights| as real < limit {
      var e := elements[0];
      var next := if e in highlights then highlights else highlights + [e];
      AddedSpec(next, elements[1..], limit);
      var r := Added(next, elements[1..], limit);
      assert Added(highlights, elements, limit) == r;
      if Crawl.NoDuplicates(highlights) && e !in highlights {
        forall i, j | 0 <= i < j < |next| ensures next[i] != next[j] {
          if j == |highlights| {
            assert next[i] == highlights[i];
          }
        }
      }
      forall x | x in r ensures x in highlights || x in elements {
        if x in next && x !in highlights {
          assert x == e;
        }
      }
      assert e in r by {
        var k :| 0 <= k < |next| && next[k] == e;
        assert r[k] == next[k];
      }
      assert forall x :: x in elements ==> x == e || x in elements[1..];
    }
  }

  /** The three lists the page hands to `addElements`, in call order: images without alt text, unlabeled fields, unlabeled buttons. */
  function Highlights<T(==)>(images: seq<T>, fields: seq<T>, buttons: seq<T>, limit: real): seq<T> {
    Added(Added(Added([], images, limit), fields, limit), buttons, limit)
  }

  /**
   * For the clamped limit: the highlights are distinct, drawn from the three
   * lists, at most 10, and at most the limit when it is whole; every
   * offending element is highlighted unless the limit is reached.
   */
  lemma HighlightsSpec<T>(images: seq<T>, fields: seq<T>, buttons: seq<T>, p: Param)
    ensures var r := Highlights(images, fields, buttons, HighlightLimit(p));
            && Crawl.NoDuplicates(r)
            && (forall x :: x in r ==> x in images || x in fields || x in buttons)
            && |r| <= 10
            && (HighlightLimit(p) == HighlightLimit(p).Floor as real ==> |r| <= HighlightLimit(p).Floor)
            && ((forall x :: x in images + fields + buttons ==> x in r) || |r| as real >= HighlightLimit(p))
  {
    var limit := HighlightLimit(p);
    var a := Added([], images, limit);
    var b := Added(a, fields, limit);
    var r := Added(b, buttons, limit);
    AddedSpec([], images, limit);
    AddedSpec(a, fields, limit);
    AddedSpec(b, buttons, limit);
    assert r == Highlights(images, fields, buttons, limit);
    assert |r| == 0 || (|r| - 1) as real < limit;
    assert limit <= 10.0;
    if |r| as real < limit {
      assert |b| as real < limit && |a| as real < limit;
    }
  }
}
