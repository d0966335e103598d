/**
 * Choosing the variant to download among the `res` elements of an item
 * (imaging-edge.py, lines 95-105): a scan that keeps a running maximum of
 * the sizes, starting at 0, and replaces the current choice only when a
 * variant is strictly larger. So the choice is the first variant of
 * greatest size, and nothing is chosen when no size is positive.
 */
module Selection {
  import opened Wrappers
  import opened Didl

  /** A `res` without a `size` attribute counts as size 0. */
  function SizeOf(r: Res): int
  {
    match r.size
    case None => 0
    case Some(n) => n
  }

  /**
   * What the scan ends with: nothing to download, the variant at `index`
   * with its URL, or a failure at `index`, where a variant that became the
   * running maximum had no text to read its URL from (the source raises).
   */
  datatype Choice = NoCandidate | Chosen(index: nat, url: string) | UrlMissing(index: nat)

  /** Position `k` is one where the running maximum is replaced. */
  predicate IsRecord(rs: seq<Res>, k: int)
  {
    0 <= k < |rs| && SizeOf(rs[k]) > 0 &&
    forall j :: 0 <= j < k ==> SizeOf(rs[j]) < SizeOf(rs[k])
  }

  /** Position `k` is the first variant of greatest size, and that size is positive. */
  predicate IsFirstMax(rs: seq<Res>, k: int)
  {
    IsRecord(rs, k) && forall j :: 0 <= j < |rs| ==> SizeOf(rs[j]) <= SizeOf(rs[k])
  }

  /** Every replacement of the running maximum before position `n` could read a URL. */
  predicate RecordsHaveUrls(rs: seq<Res>, n: int)
  {
    forall k :: 0 <= k < n && IsRecord(rs, k) ==> rs[k].url.Some?
  }

  /**
   * `c` names a variant at or after position `i` that is larger than
   * `last`, with the URL `c` carries, or none when `c` reports it missing.
   */
  predicate Picks(rs: seq<Res>, c: Choice, i: int, last: int)
  {
    match c
    case NoCandidate => false
    case Chosen(k, u) => 0 <= i <= k < |rs| && SizeOf(rs[k]) > last && rs[k].url == Some(u)
    case UrlMissing(k) => 0 <= i <= k < |rs| && SizeOf(rs[k]) > last && rs[k].url.None?
  }

  /** The scan from position `i`, with running maximum `last` and current choice `best`. */
  function Scan(rs: seq<Res>, i: nat, last: int, best: Choice): (r: Choice)
    requires i <= |rs|
    ensures r == best || Picks(rs, r, i, last)
    decreases |rs| - i
  {
    if i == |rs| then best
    else if SizeOf(rs[i]) > last then
      match rs[i].url
      case None => UrlMissing(i)
      case Some(u) => Scan(rs, i + 1, SizeOf(rs[i]), Chosen(i, u))
    else Scan(rs, i + 1, last, best)
  }

  /** The choice the source makes for an item whose variants are `rs`. */
  function Select(rs: seq<Res>): (r: Choice)
    ensures r.NoCandidate? || Picks(rs, r, 0, 0)
  {
    Scan(rs, 0, 0, NoCandidate)
  }

  /** What holds of the scan's state after it has looked at `rs[..i]`. */
  predicate ScanInv(rs: seq<Res>, i: nat, last: int, best: Choice)
  {
    i <= |rs| && last >= 0 &&
    (forall j :: 0 <= j < i ==> SizeOf(rs[j]) <= last) &&
    RecordsHaveUrls(rs, i) &&
    !best.UrlMissing? &&
    (best.NoCandidate? ==> last == 0) &&
    (best.Chosen? ==>
      best.index < i && IsRecord(rs, best.index) &&
      SizeOf(rs[best.index]) == last && rs[best.index].url == Some(best.url))
  }

  lemma {:induction false} ScanCorrect(rs: seq<Res>, i: nat, last: int, best: Choice)
    requires ScanInv(rs, i, last, best)
    ensures match Scan(rs, i, last, best)
      case NoCandidate => forall j :: 0 <= j < |rs| ==> SizeOf(rs[j]) <= 0
      case Chosen(k, u) => IsFirstMax(rs, k) && rs[k].url == Some(u) && RecordsHaveUrls(rs, |rs|)
      case UrlMissing(k) => IsRecord(rs, k) && rs[k].url.None? && RecordsHaveUrls(rs, k)
    decreases |rs| - i
  {
    if i < |rs| {
      if SizeOf(rs[i]) > last {
        assert IsRecord(rs, i);
        match rs[i].url
        case None =>
        case Some(u) =>
          ScanCorrect(rs, i + 1, SizeOf(rs[i]), Chosen(i, u));
      } else {
        assert !IsRecord(rs, i);
        ScanCorrect(rs, i + 1, last, best);
      }
    }
  }

  /**
   * The selection rule: nothing is chosen exactly when no size is
   * positive; otherwise the first variant of greatest size is chosen when
   * every replacement of the running maximum had a URL, and the scan
   * fails at the first one that did not.
   */
  lemma SelectSpec(rs: seq<Res>)
    ensures Select(rs).NoCandidate? <==> forall j :: 0 <= j < |rs| ==> SizeOf(rs[j]) <= 0
    ensures Select(rs).Chosen? <==>
      (exists j :: 0 <= j < |rs| && SizeOf(rs[j]) > 0) && RecordsHaveUrls(rs, |rs|)
    ensures Select(rs).Chosen? ==>
      IsFirstMax(rs, Select(rs).index) && rs[Select(rs).index].url == Some(Select(rs).url)
    ensures Select(rs).UrlMissing? ==>
      IsRecord(rs, Select(rs).index) && rs[Select(rs).index].url.None? &&
      RecordsHaveUrls(rs, Select(rs).index)
  {
    ScanCorrect(rs, 0, 0, NoCandidate);
  }

  /** At most one position is the first variant of greatest size. */
  lemma FirstMaxUnique(rs: seq<Res>, i: int, k: int)
    requires IsFirstMax(rs, i) && IsFirstMax(rs, k)
    ensures i == k
  {
  }

  /** The `resolution` attributes never influence the scan. */
  lemma {:induction false} ScanIgnoresResolution(rs: seq<Res>, qs: seq<Res>, i: nat, last: int, best: Choice)
    requires i <= |rs| == |qs|
    requires forall j :: 0 <= j < |rs| ==> rs[j].size == qs[j].size && rs[j].url == qs[j].url
    ensures Scan(rs, i, last, best) == Scan(qs, i, last, best)
    decreases |rs| - i
  {
    if i < |rs| {
      ScanIgnoresResolution(rs, qs, i + 1, last, best);
      match rs[i].url
      case None =>
      case Some(u) => ScanIgnoresResolution(rs, qs, i + 1, SizeOf(rs[i]), Chosen(i, u));
    }
  }

  /** Two items whose variants differ only in `resolution` get the same choice. */
  lemma SelectIgnoresResolution(rs: seq<Res>, qs: seq<Res>)
    requires |rs| == |qs|
    requires forall j :: 0 <= j < |rs| ==> rs[j].size == qs[j].size && rs[j].url == qs[j].url
    ensures Select(rs) == Select(qs)
  {
    ScanIgnoresResolution(rs, qs, 0, 0, NoCandidate);
  }

  /** Sizes 100, 500, 500: the first 500 wins; a lone size 0 or a missing size gives nothing. */
  lemma SelectExamples()
    ensures Select([Res(Some(100), None, Some("A")), Res(Some(500), None, Some("B")),
                    Res(Some(500), None, Some("C"))]) == Chosen(1, "B")
    ensures Select([Res(Some(0), None, Some("A"))]) == NoCandidate
    ensures Select([Res(None, Some("4K"), Some("A"))]) == NoCandidate
  {
  }

  /**
   * The loop of lines 95-105: `lastSize` and the current choice are
   * updated in place while the variants are visited in order.
   */
  method SelectBest(rs: seq<Res>) returns (c: Choice)
    ensures c == Select(rs)
    ensures c.NoCandidate? <==> forall j :: 0 <= j < |rs| ==> SizeOf(rs[j]) <= 0
    ensures c.Chosen? ==> IsFirstMax(rs, c.index) && rs[c.index].url == Some(c.url)
    ensures c.UrlMissing? ==> IsRecord(rs, c.index) && rs[c.index].url.None?
  {
    var lastSize := 0;
    c := NoCandidate;
    var i := 0;
    while i < |rs|
      invariant 0 <= i <= |rs|
      invariant !c.UrlMissing?
      invariant Scan(rs, i, lastSize, c) == Select(rs)
    {
      var size := SizeOf(rs[i]);
      if size > lastSize {
        if rs[i].url.None? {
          c := UrlMissing(i);
          SelectSpec(rs);
          return;
        }
        c := Chosen(i, rs[i].url.value);
        lastSize := size;
      }
      i := i + 1;
    }
    SelectSpec(rs);
  }
}
