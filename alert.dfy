/** The alert text `send_alert` builds: a fixed header, then one block per
    reported transaction, numbered from 1. The Persian labels, emoji and
    Markdown markers are opaque constants here. Beside the rendering sits a
    parser that reads the text back; the round-trip lemma states that there
    is one block per transaction and that block i shows i and the i-th
    transaction's fee, size and shortened id. */
module Alert {
  import opened NumberFormat
  // `Option`, which the parser returns, and `Min` are declared in `Mempool`.
  import opened Mempool

  const Header: string := "🐋 **هشدار تراکنش بزرگ بیت\U{200C}کوین** 🚨\n\n"
  const IndexOpen: string := "**تراکنش #"
  const IndexClose: string := "**\n"
  const FeeOpen: string := "💰 کارمزد: "
  const FeeClose: string := " ساتوشی\n"
  const SizeOpen: string := "📦 حجم: "
  const SizeClose: string := " بایت\n"
  const IdOpen: string := "🆔 شناسه: `"
  const IdClose: string := "...`\n"
  const Divider: string := "─────────────────\n"

  /** How many leading characters of an id the alert shows. */
  const IdShownLength: nat := 20

  /** `id[:20]`. `Min` is the one declared in module `Mempool`. */
  function ShortId(id: string): (r: string)
    ensures r <= id
    ensures |r| == Min(|id|, IdShownLength)
  {
    id[..Min(|id|, IdShownLength)]
  }

  /** The strings of `parts` joined in order. */
  function Concat(parts: seq<string>): string
    decreases |parts|
  {
    if parts == [] then "" else parts[0] + Concat(parts[1..])
  }

  lemma {:induction false} ConcatSnoc(parts: seq<string>, p: string)
    ensures Concat(parts + [p]) == Concat(parts) + p
    decreases |parts|
  {
    if parts == [] {
      assert parts + [p] == [p];
      assert Concat([p]) == p + Concat([]);
    } else {
      assert (parts + [p])[0] == parts[0] && (parts + [p])[1..] == parts[1..] + [p];
      ConcatSnoc(parts[1..], p);
    }
  }

  /** The pieces of the block for the transaction numbered `index`, one line
      of the message per three pieces: the number, the fee with thousands
      commas, the size, the shortened id in a code span, then the divider. */
  function BlockPieces(index: nat, tx: Candidate): seq<string> {
    [ IndexOpen, NatToString(index), IndexClose,
      FeeOpen, WithCommas(tx.fee), FeeClose,
      SizeOpen, IntToString(tx.size), SizeClose,
      IdOpen, ShortId(tx.id), IdClose,
      Divider ]
  }

  function Block(index: nat, tx: Candidate): (r: string)
    ensures IndexOpen <= r
  {
    Concat(BlockPieces(index, tx))
  }

  /** The blocks of `txs`, the first one numbered `first`. */
  function Blocks(txs: seq<Candidate>, first: nat): (r: seq<string>)
    ensures |r| == |txs|
  {
    seq(|txs|, i requires 0 <= i < |txs| => Block(first + i, txs[i]))
  }

  /** The whole message for a batch of transactions. */
  function AlertText(txs: seq<Candidate>): (r: string)
    ensures Header <= r
    ensures txs == [] <==> r == Header
  {
    Header + Concat(Blocks(txs, 1))
  }

  lemma BlocksSnoc(txs: seq<Candidate>, tx: Candidate, first: nat)
    ensures Blocks(txs + [tx], first) == Blocks(txs, first) + [Block(first + |txs|, tx)]
  {
    var a := Blocks(txs + [tx], first);
    var b := Blocks(txs, first) + [Block(first + |txs|, tx)];
    assert |a| == |b|;
    forall i | 0 <= i < |a|
      ensures a[i] == b[i]
    {
      assert (txs + [tx])[i] == if i < |txs| then txs[i] else tx;
    }
  }

  lemma JoinSnoc(head: string, parts: seq<string>, p: string)
    ensures head + Concat(parts + [p]) == (head + Concat(parts)) + p
  {
    ConcatSnoc(parts, p);
  }

  /** The message is grown one block at a time: the text for the first
      i + 1 transactions is the text for the first i followed by block i + 1. */
  lemma AlertTextSnoc(txs: seq<Candidate>, tx: Candidate)
    ensures AlertText(txs + [tx]) == AlertText(txs) + Block(|txs| + 1, tx)
  {
    BlocksSnoc(txs, tx, 1);
    JoinSnoc(Header, Blocks(txs, 1), Block(|txs| + 1, tx));
  }

  // ---------------------------------------------------------------------
  // Reading an alert back

  /** What a block shows of its transaction. */
  datatype Shown = Shown(index: nat, fee: int, size: int, id: string)

  /** What the alert for `txs` shows, block by block. */
  function Displayed(txs: seq<Candidate>, first: nat): (r: seq<Shown>)
    ensures |r| == |txs|
  {
    seq(|txs|, i requires 0 <= i < |txs| => Shown(first + i, txs[i].fee, txs[i].size, ShortId(txs[i].id)))
  }

  datatype CharClass = Decimal | SignedDecimal | Grouped

  predicate InClass(c: char, k: CharClass) {
    match k
    case Decimal => IsDigit(c)
    case SignedDecimal => IsDigit(c) || c == '-'
    case Grouped => IsDigit(c) || c == '-' || c == ','
  }

  /** The length of the longest prefix of `s` whose characters are in class `k`. */
  function RunLength(s: string, k: CharClass): (n: nat)
    ensures n <= |s|
  {
    if s == [] || !InClass(s[0], k) then 0 else 1 + RunLength(s[1..], k)
  }

  /** `s` without its prefix `p`, if it starts with `p`. */
  function Skip(s: string, p: string): (r: Option<string>)
    ensures r.Some? ==> |r.value| == |s| - |p|
  {
    if p <= s then Some(s[|p|..]) else None
  }

  /** A number field: the longest run of class `k` and what follows it. */
  function Field(s: string, k: CharClass): (r: (string, string))
    ensures r.0 + r.1 == s
  {
    var n := RunLength(s, k);
    (s[..n], s[n..])
  }

  /** Does the text after a shown id start at `s`? */
  predicate AtIdEnd(s: string) {
    IdClose <= s && Divider <= s[|IdClose|..]
  }

  /** The first position at or after `from` where a shown id can end,
      looking no further than the longest id the alert shows. */
  function FindIdEnd(s: string, from: nat): (r: Option<nat>)
    ensures r.Some? ==> from <= r.value <= |s| && AtIdEnd(s[r.value..])
    decreases IdShownLength + 1 - from
  {
    if from > IdShownLength || from > |s| then None
    else if AtIdEnd(s[from..]) then Some(from)
    else FindIdEnd(s, from + 1)
  }

  /** Reads one block from the front of `s`; returns what it shows and the
      text after it. The stages below read the number, the fee, the size
      and the id in turn. */
  function ParseBlock(s: string): (r: Option<(Shown, string)>)
    ensures r.Some? ==> |r.value.1| < |s|
  {
    match Skip(s, IndexOpen)
    case None => None
    case Some(s1) => ParseIndex(s1)
  }

  function ParseIndex(s: string): (r: Option<(Shown, string)>)
    ensures r.Some? ==> |r.value.1| < |s|
  {
    var (index, s2) := Field(s, Decimal);
    match Skip(s2, IndexClose + FeeOpen)
    case None => None
    case Some(s3) => ParseFee(ParseDigits(index), s3)
  }

  function ParseFee(index: nat, s: string): (r: Option<(Shown, string)>)
    ensures r.Some? ==> |r.value.1| < |s|
  {
    var (fee, s2) := Field(s, Grouped);
    match Skip(s2, FeeClose + SizeOpen)
    case None => None
    case Some(s3) => ParseSize(index, ParseInt(StripCommas(fee)), s3)
  }

  function ParseSize(index: nat, fee: int, s: string): (r: Option<(Shown, string)>)
    ensures r.Some? ==> |r.value.1| < |s|
  {
    var (size, s2) := Field(s, SignedDecimal);
    match Skip(s2, SizeClose + IdOpen)
    case None => None
    case Some(s3) => ParseId(index, fee, ParseInt(size), s3)
  }

  function ParseId(index: nat, fee: int, size: int, s: string): (r: Option<(Shown, string)>)
    ensures r.Some? ==> |r.value.1| < |s|
  {
    match FindIdEnd(s, 0)
    case None => None
    case Some(n) => Some((Shown(index, fee, size, s[..n]), s[n + |IdClose| + |Divider|..]))
  }

  /** Reads consecutive blocks until the text ends. */
  function ParseBlocks(s: string): Option<seq<Shown>>
    decreases |s|
  {
    if s == [] then Some([])
    else
      match ParseBlock(s)
      case None => None
      case Some((b, rest)) =>
        match ParseBlocks(rest)
        case None => None
        case Some(bs) => Some([b] + bs)
  }

  function ParseAlert(s: string): Option<seq<Shown>> {
    match Skip(s, Header)
    case None => None
    case Some(body) => ParseBlocks(body)
  }

  lemma SkipPrefix(p: string, t: string)
    ensures Skip(p + t, p) == Some(t)
  {
    assert (p + t)[..|p|] == p && (p + t)[|p|..] == t;
  }

  lemma {:induction false} RunOver(a: string, b: string, k: CharClass)
    requires forall i :: 0 <= i < |a| ==> InClass(a[i], k)
    requires b != [] && !InClass(b[0], k)
    ensures RunLength(a + b, k) == |a|
    decreases |a|
  {
    if a == [] {
      assert a + b == b;
    } else {
      assert (a + b)[0] == a[0] && (a + b)[1..] == a[1..] + b;
      RunOver(a[1..], b, k);
    }
  }

  lemma FieldOf(a: string, b: string, k: CharClass)
    requires forall i :: 0 <= i < |a| ==> InClass(a[i], k)
    requires b != [] && !InClass(b[0], k)
    ensures Field(a + b, k) == (a, b)
  {
    RunOver(a, b, k);
    assert (a + b)[..|a|] == a && (a + b)[|a|..] == b;
  }

  /** The end of a shown id cannot be found inside it: the text after an id
      has no proper prefix that is also its suffix within reach, and it is
      longer than any shown id. */
  lemma NoEarlyIdEnd(id: string, tail: string, j: nat)
    requires |id| <= IdShownLength && j < |id| && AtIdEnd(tail)
    ensures !AtIdEnd((id + tail)[j..])
  {
    var w := (id + tail)[j..];
    var d := |id| - j;
    assert w[d..] == tail;
    assert w[d] == IdClose[0];
    if d < 3 {
      // the fourth character would have to be the backtick, but it is a dot
      assert w[3] == tail[3 - d] == IdClose[3 - d];
      assert IdClose[3 - d] != IdClose[3];
    } else if d < |IdClose| {
      assert IdClose[d] != IdClose[0];
    } else {
      assert Divider[d - |IdClose|] != IdClose[0];
    }
  }

  lemma {:induction false} FindIdEndAfter(id: string, tail: string, from: nat)
    requires |id| <= IdShownLength && from <= |id| && AtIdEnd(tail)
    ensures FindIdEnd(id + tail, from) == Some(|id|)
    decreases |id| - from
  {
    if from == |id| {
      assert (id + tail)[from..] == tail;
    } else {
      NoEarlyIdEnd(id, tail, from);
      FindIdEndAfter(id, tail, from + 1);
    }
  }

  /** The parser's view of `IntToString`: every character falls in the
      class it reads a size with. */
  lemma IntToStringChars(x: int)
    ensures forall i :: 0 <= i < |IntToString(x)| ==> InClass(IntToString(x)[i], SignedDecimal)
  {
  }

  /** One step of joining: the first piece, then the rest joined. */
  lemma ConcatFrom(parts: seq<string>, k: nat, rest: string)
    requires k < |parts|
    ensures Concat(parts[k..]) + rest == parts[k] + (Concat(parts[k + 1..]) + rest)
  {
    assert parts[k..][0] == parts[k] && parts[k..][1..] == parts[k + 1..];
  }

  lemma ParseIdOf(index: nat, fee: int, size: int, id: string, rest: string)
    requires |id| <= IdShownLength
    ensures ParseId(index, fee, size, id + (IdClose + (Divider + rest))) == Some((Shown(index, fee, size, id), rest))
  {
    var tail := IdClose + (Divider + rest);
    assert tail[|IdClose|..] == Divider + rest;
    FindIdEndAfter(id, tail, 0);
    assert (id + tail)[..|id|] == id;
    assert (id + tail)[|id| + |IdClose| + |Divider|..] == rest;
  }

  lemma ParseSizeOf(index: nat, fee: int, size: int, tail: string)
    ensures ParseSize(index, fee, IntToString(size) + (SizeClose + (IdOpen + tail))) == ParseId(index, fee, size, tail)
  {
    IntToStringChars(size);
    FieldOf(IntToString(size), SizeClose + (IdOpen + tail), SignedDecimal);
    IntRoundTrip(size);
    assert SizeClose + (IdOpen + tail) == (SizeClose + IdOpen) + tail;
    SkipPrefix(SizeClose + IdOpen, tail);
  }

  lemma ParseFeeOf(index: nat, fee: int, tail: string)
    ensures ParseFee(index, WithCommas(fee) + (FeeClose + (SizeOpen + tail))) == ParseSize(index, fee, tail)
  {
    WithCommasChars(fee);
    FieldOf(WithCommas(fee), FeeClose + (SizeOpen + tail), Grouped);
    StripWithCommas(fee);
    IntRoundTrip(fee);
    assert FeeClose + (SizeOpen + tail) == (FeeClose + SizeOpen) + tail;
    SkipPrefix(FeeClose + SizeOpen, tail);
  }

  lemma ParseIndexOf(index: nat, tail: string)
    ensures ParseIndex(NatToString(index) + (IndexClose + (FeeOpen + tail))) == ParseFee(index, tail)
  {
    FieldOf(NatToString(index), IndexClose + (FeeOpen + tail), Decimal);
    NatRoundTrip(index);
    assert IndexClose + (FeeOpen + tail) == (IndexClose + FeeOpen) + tail;
    SkipPrefix(IndexClose + FeeOpen, tail);
  }

  /** Three pieces unfolded from the front, the remaining pieces and the
      text after them given as `tail`. */
  lemma ConcatFrom3(parts: seq<string>, k: nat, rest: string, tail: string)
    requires k + 3 <= |parts| && Concat(parts[k + 3..]) + rest == tail
    ensures Concat(parts[k..]) + rest == parts[k] + (parts[k + 1] + (parts[k + 2] + tail))
  {
    ConcatFrom(parts, k, rest);
    ConcatFrom(parts, k + 1, rest);
    ConcatFrom(parts, k + 2, rest);
  }

  /** Thirteen joined pieces followed by more text, nested from the front. */
  lemma ConcatThirteen(ps: seq<string>, rest: string)
    requires |ps| == 13
    ensures Concat(ps) + rest ==
      ps[0] + (ps[1] + (ps[2] + (ps[3] + (ps[4] + (ps[5] + (ps[6] +
      (ps[7] + (ps[8] + (ps[9] + (ps[10] + (ps[11] + (ps[12] + rest))))))))))))
  {
    assert Concat(ps[13..]) + rest == rest;
    var t10 := ps[10] + (ps[11] + (ps[12] + rest));
    ConcatFrom3(ps, 10, rest, rest);
    var t7 := ps[7] + (ps[8] + (ps[9] + t10));
    ConcatFrom3(ps, 7, rest, t10);
    var t4 := ps[4] + (ps[5] + (ps[6] + t7));
    ConcatFrom3(ps, 4, rest, t7);
    var t1 := ps[1] + (ps[2] + (ps[3] + t4));
    ConcatFrom3(ps, 1, rest, t4);
    assert ps[0..] == ps;
    ConcatFrom(ps, 0, rest);
  }

  /** A block followed by more text, written piece by piece from the front. */
  lemma BlockThen(index: nat, tx: Candidate, rest: string)
    ensures Block(index, tx) + rest ==
      IndexOpen + (NatToString(index) + (IndexClose +
      (FeeOpen + (WithCommas(tx.fee) + (FeeClose +
      (SizeOpen + (IntToString(tx.size) + (SizeClose +
      (IdOpen + (ShortId(tx.id) + (IdClose +
      (Divider + rest))))))))))))
  {
    ConcatThirteen(BlockPieces(index, tx), rest);
  }

  /** Reading a block back yields its number, fee, size and shown id, and
      leaves whatever followed it. */
  lemma ParseBlockOfBlock(index: nat, tx: Candidate, rest: string)
    ensures ParseBlock(Block(index, tx) + rest) == Some((Shown(index, tx.fee, tx.size, ShortId(tx.id)), rest))
  {
    var t10 := ShortId(tx.id) + (IdClose + (Divider + rest));
    var t7 := IntToString(tx.size) + (SizeClose + (IdOpen + t10));
    var t4 := WithCommas(tx.fee) + (FeeClose + (SizeOpen + t7));
    var t1 := NatToString(index) + (IndexClose + (FeeOpen + t4));
    BlockThen(index, tx, rest);
    SkipPrefix(IndexOpen, t1);
    ParseIndexOf(index, t4);
    ParseFeeOf(index, tx.fee, t7);
    ParseSizeOf(index, tx.fee, tx.size, t10);
    ParseIdOf(index, tx.fee, tx.size, ShortId(tx.id), rest);
  }

  lemma DisplayedCons(txs: seq<Candidate>, first: nat)
    requires txs != []
    ensures Displayed(txs, first) ==
      [Shown(first, txs[0].fee, txs[0].size, ShortId(txs[0].id))] + Displayed(txs[1..], first + 1)
  {
    var a := Displayed(txs, first);
    var b := [Shown(first, txs[0].fee, txs[0].size, ShortId(txs[0].id))] + Displayed(txs[1..], first + 1);
    assert |a| == |b|;
    forall i | 0 <= i < |a|
      ensures a[i] == b[i]
    {
      if i > 0 {
        assert b[i] == Displayed(txs[1..], first + 1)[i - 1];
        assert txs[1..][i - 1] == txs[i];
      }
    }
  }

  lemma ParseBlocksCons(s: string, shown: Shown, rest: string, more: seq<Shown>)
    requires ParseBlock(s) == Some((shown, rest)) && ParseBlocks(rest) == Some(more)
    ensures ParseBlocks(s) == Some([shown] + more)
  {
  }

  lemma {:induction false} ParseConcatBlocks(txs: seq<Candidate>, first: nat)
    ensures ParseBlocks(Concat(Blocks(txs, first))) == Some(Displayed(txs, first))
    decreases |txs|
  {
    var bs := Blocks(txs, first);
    if txs == [] {
      assert bs == [];
    } else {
      var shown := Shown(first, txs[0].fee, txs[0].size, ShortId(txs[0].id));
      var rest := Concat(bs[1..]);
      assert bs[1..] == Blocks(txs[1..], first + 1);
      assert Concat(bs) == Block(first, txs[0]) + rest;
      ParseBlockOfBlock(first, txs[0], rest);
      ParseConcatBlocks(txs[1..], first + 1);
      ParseBlocksCons(Concat(bs), shown, rest, Displayed(txs[1..], first + 1));
      DisplayedCons(txs, first);
    }
  }

  /** The alert for N transactions is the header and exactly N blocks;
      block i (from 1) shows i and the i-th transaction's fee (thousands
      grouped), size and first 20 characters of id. */
  lemma AlertRoundTrip(txs: seq<Candidate>)
    ensures ParseAlert(AlertText(txs)) == Some(Displayed(txs, 1))
  {
    SkipPrefix(Header, Concat(Blocks(txs, 1)));
    ParseConcatBlocks(txs, 1);
  }
}
