/** The mempool listing as the tracker sees it once the HTTP response has
    been decoded, and the selection rule applied to it: scan the first 100
    entries in the order the body lists them, keep those whose fee exceeds
    50,000, report the first five, and report nothing at all if any scanned
    entry makes the scan raise. */
module Mempool {

  datatype Option<+T> = None | Some(value: T)

  /** What `fee > 50000` sees in a `fee` field: a JSON integer (a boolean
      compares as 0 or 1), or a value Python cannot order against an
      integer (null, a string, a list, an object), which raises TypeError. */
  datatype FeeValue = Number(amount: int) | Unordered

  /** The metadata of one listed transaction: a JSON object with an optional
      `fee` and an optional `size`, or a value that is not an object at all
      (which has no `.get` and raises AttributeError). */
  datatype TxData = Fields(fee: Option<FeeValue>, size: Option<int>) | NotAMapping

  datatype Entry = Entry(id: string, data: TxData)

  /** The decoded response body. `Unavailable` stands for every way of not
      getting a mapping of entries: a network error or timeout, a body that
      is not JSON, or a JSON value without `.items()`. */
  datatype Listing = Unavailable | Parsed(entries: seq<Entry>)

  /** The record built for a selected transaction. */
  datatype Candidate = Candidate(id: string, fee: int, size: int)

  const FeeThreshold: int := 50000
  const ScanLimit: nat := 100
  const MaxCandidates: nat := 5

  /** What scanning one entry does: raise, pass over it, or keep a record. */
  datatype Verdict = Raises | Skipped | Keep(candidate: Candidate)

  /** The body of the scan loop for one entry. A missing fee reads as 0. */
  function Examine(e: Entry): (v: Verdict)
    ensures v.Keep? <==>
              e.data.Fields? && e.data.size.Some? &&
              e.data.fee.Some? && e.data.fee.value.Number? && e.data.fee.value.amount > FeeThreshold
    ensures v.Keep? ==> v.candidate == Candidate(e.id, e.data.fee.value.amount, e.data.size.value)
    ensures e.data.Fields? && e.data.fee.None? ==> v.Skipped?
    ensures v.Raises? <==>
              || e.data.NotAMapping?
              || e.data.fee == Some(Unordered)
              || (e.data.fee.Some? && e.data.fee.value.Number? &&
                  e.data.fee.value.amount > FeeThreshold && e.data.size.None?)
  {
    match e.data
    case NotAMapping => Raises
    case Fields(fee, size) =>
      var f := if fee.Some? then fee.value else Number(0);
      match f
      case Unordered => Raises
      case Number(amount) =>
        if amount <= FeeThreshold then Skipped
        else if size.None? then Raises
        else Keep(Candidate(e.id, amount, size.value))
  }

  /** The records kept by an uninterrupted scan of `es`, in scan order. */
  function Qualifying(es: seq<Entry>): (r: seq<Candidate>)
    ensures |r| <= |es|
    ensures forall c :: c in r ==> c.fee > FeeThreshold
    decreases |es|
  {
    if es == [] then []
    else
      var last := Examine(es[|es| - 1]);
      Qualifying(es[..|es| - 1]) + (if last.Keep? then [last.candidate] else [])
  }

  /** Whether scanning `es` raises somewhere. When it does not, every entry
      is an object whose fee, if present, is an integer. */
  predicate AnyRaises(es: seq<Entry>)
    ensures !AnyRaises(es) ==>
              forall e :: e in es ==> e.data.Fields? && e.data.fee != Some(Unordered)
  {
    exists j :: 0 <= j < |es| && Examine(es[j]).Raises?
  }

  function Min(a: nat, b: nat): nat {
    if a < b then a else b
  }

  /** The entries the scan looks at: the first 100 in listing order. */
  function Scanned(es: seq<Entry>): (r: seq<Entry>)
    ensures |r| == Min(|es|, ScanLimit) && r <= es
  {
    es[..Min(|es|, ScanLimit)]
  }

  /** What one fetch reports. */
  function Candidates(listing: Listing): (r: seq<Candidate>)
    ensures |r| <= MaxCandidates
    ensures forall c :: c in r ==> c.fee > FeeThreshold
  {
    match listing
    case Unavailable => []
    case Parsed(es) =>
      var scanned := Scanned(es);
      if AnyRaises(scanned) then []
      else
        var kept := Qualifying(scanned);
        kept[..Min(|kept|, MaxCandidates)]
  }

  /** Scan order is kept: the records of a concatenation are the records of
      the first part followed by those of the second. */
  lemma {:induction false} QualifyingAppend(a: seq<Entry>, b: seq<Entry>)
    ensures Qualifying(a + b) == Qualifying(a) + Qualifying(b)
    decreases |b|
  {
    if b == [] {
      assert a + b == a;
    } else {
      var init := b[..|b| - 1];
      assert (a + b)[..|a + b| - 1] == a + init;
      assert (a + b)[|a + b| - 1] == b[|b| - 1];
      QualifyingAppend(a, init);
    }
  }

  /** A record is kept exactly when some scanned entry yields it. */
  lemma {:induction false} QualifyingMembers(es: seq<Entry>, c: Candidate)
    ensures c in Qualifying(es) <==> exists i :: 0 <= i < |es| && Examine(es[i]) == Keep(c)
    decreases |es|
  {
    if es != [] {
      var init := es[..|es| - 1];
      QualifyingMembers(init, c);
      if c in Qualifying(init) {
        var i :| 0 <= i < |init| && Examine(init[i]) == Keep(c);
        assert es[i] == init[i];
      }
      if exists i :: 0 <= i < |es| && Examine(es[i]) == Keep(c) {
        var i :| 0 <= i < |es| && Examine(es[i]) == Keep(c);
        if i < |init| {
          assert init[i] == es[i];
        }
      }
    }
  }

  /** Every reported record comes from one of the first 100 entries, which
      carries the record's id, fee and size. */
  lemma CandidatesFromScannedEntries(es: seq<Entry>, c: Candidate)
    requires c in Candidates(Parsed(es))
    ensures exists i :: 0 <= i < |es| && i < ScanLimit &&
              es[i] == Entry(c.id, Fields(Some(Number(c.fee)), Some(c.size)))
  {
    var scanned := Scanned(es);
    var kept := Qualifying(scanned);
    assert c in kept;
    QualifyingMembers(scanned, c);
    var i :| 0 <= i < |scanned| && Examine(scanned[i]) == Keep(c);
    assert es[i] == scanned[i];
  }

  /** Entries after the hundredth are never looked at. */
  lemma CandidatesIgnoreTail(es: seq<Entry>, more: seq<Entry>)
    requires |es| >= ScanLimit
    ensures Candidates(Parsed(es + more)) == Candidates(Parsed(es))
  {
    assert Scanned(es + more) == Scanned(es);
  }

  /** A listing of at most 100 entries is scanned in full: when none of its
      entries raises, the report is the first five of all its records. */
  lemma CandidatesOfShortListing(es: seq<Entry>)
    requires |es| <= ScanLimit && !AnyRaises(es)
    ensures Candidates(Parsed(es)) == Qualifying(es)[..Min(|Qualifying(es)|, MaxCandidates)]
  {
    assert Scanned(es) == es;
  }

  /** All or nothing: one scanned entry that raises empties the report, even
      when five records were already kept before it. */
  lemma RaisingEntryEmptiesReport(es: seq<Entry>, i: nat)
    requires i < |es| && i < ScanLimit && Examine(es[i]).Raises?
    ensures Candidates(Parsed(es)) == []
  {
    assert Scanned(es)[i] == es[i];
  }

  /** The report is the order-preserving filter cut at five: with the first
      100 entries split anywhere, the records of the first part come first. */
  lemma CandidatesInScanOrder(es: seq<Entry>, k: nat)
    requires k <= |es| && k <= ScanLimit && !AnyRaises(Scanned(es))
    ensures Candidates(Parsed(es)) <= Qualifying(es[..k]) + Qualifying(Scanned(es)[k..])
    ensures |Qualifying(es[..k])| >= MaxCandidates ==>
              Candidates(Parsed(es)) == Qualifying(es[..k])[..MaxCandidates]
  {
    var scanned := Scanned(es);
    assert scanned == es[..k] + scanned[k..];
    QualifyingAppend(es[..k], scanned[k..]);
  }

  /** Fees 60,000, 10,000 and 99,999 in that order, then an entry with no
      fee: the first and third entries are reported, in listing order and
      therefore not sorted by fee; the entry without a fee is passed over. */
  lemma ThreeLargeOrSmallEntries()
    ensures Candidates(Parsed([
              Entry("a", Fields(Some(Number(60000)), Some(250))),
              Entry("b", Fields(Some(Number(10000)), Some(300))),
              Entry("c", Fields(Some(Number(99999)), Some(400))),
              Entry("d", Fields(None, None))]))
            == [Candidate("a", 60000, 250), Candidate("c", 99999, 400)]
  {
    var es := [
      Entry("a", Fields(Some(Number(60000)), Some(250))),
      Entry("b", Fields(Some(Number(10000)), Some(300))),
      Entry("c", Fields(Some(Number(99999)), Some(400))),
      Entry("d", Fields(None, None))];
    assert Scanned(es) == es;
    assert es[..3][..2][..1] == es[..1];
    assert Qualifying(es[..1]) == [Candidate("a", 60000, 250)];
    assert Qualifying(es[..3]) == [Candidate("a", 60000, 250), Candidate("c", 99999, 400)];
    assert es[..4] == es;
  }
}
