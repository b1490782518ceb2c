/** The tracker object: the fetch-and-filter step, the alert step and the
    cycle that joins them, written as the step-by-step code they are and
    proved against the selection rule and the alert text. The messaging
    service is a `Bot` that records every text handed to it. */
module Tracker {
  import opened Mempool
  import opened Alert

  /** The messaging bot as the tracker can observe it: the texts it was
      asked to send, oldest first. Whether the service delivers a text only
      shows in the log. */
  class Bot {
    var sent: seq<string>

    constructor ()
      ensures sent == []
    {
      sent := [];
    }

    method SendMessage(text: string)
      modifies this
      ensures sent == old(sent) + [text]
    {
      sent := sent + [text];
    }
  }

  /** The texts `send_alert` hands to the bot for a batch: nothing for an
      empty batch, otherwise its alert. */
  function Dispatched(txs: seq<Candidate>): (r: seq<string>)
    ensures |r| <= 1
    ensures r == [] <==> txs == []
  {
    if txs == [] then [] else [AlertText(txs)]
  }

  /** The texts one check cycle hands to the bot. */
  function CycleMessages(listing: Listing): (r: seq<string>)
    ensures |r| <= 1
    ensures r == [] <==> Candidates(listing) == []
    ensures forall m :: m in r ==> Header <= m
  {
    Dispatched(Candidates(listing))
  }

  /** End to end: a cycle sends at most one alert, and only when the fetch
      found something; that alert reads back as one to five numbered
      blocks, each showing a fee above 50,000. */
  lemma CycleAlert(listing: Listing)
    ensures |CycleMessages(listing)| == (if Candidates(listing) == [] then 0 else 1)
    ensures forall m :: m in CycleMessages(listing) ==>
              exists shown: seq<Shown> ::
                && ParseAlert(m) == Some(shown)
                && 1 <= |shown| <= MaxCandidates
                && (forall i :: 0 <= i < |shown| ==> shown[i].index == i + 1 && shown[i].fee > FeeThreshold)
  {
    var txs := Candidates(listing);
    if txs != [] {
      var shown := Displayed(txs, 1);
      assert forall i :: 0 <= i < |shown| ==> txs[i] in txs;
      AlertRoundTrip(txs);
    }
  }

  class WhaleTracker {
    const bot: Bot

    constructor (bot: Bot)
      ensures this.bot == bot
    {
      this.bot := bot;
    }

    /** `get_whale_transactions` after the HTTP request: scan the first 100
        entries, collect the large ones, report the first five; any raise
        along the way is caught and reported as no transactions. */
    method GetWhaleTransactions(listing: Listing) returns (txs: seq<Candidate>)
      ensures txs == Candidates(listing)
    {
      if listing.Unavailable? {
        return [];
      }
      var entries := listing.entries;
      var n := Min(|entries|, ScanLimit);
      var large: seq<Candidate> := [];
      var i := 0;
      while i < n
        invariant 0 <= i <= n
        invariant !AnyRaises(entries[..i])
        invariant large == Qualifying(entries[..i])
      {
        var e := entries[i];
        assert Scanned(entries)[i] == e;
        assert entries[..i + 1][..i] == entries[..i] && entries[..i + 1][i] == e;
        match e.data {
          case NotAMapping =>
            return [];
          case Fields(fee, size) =>
            var f := if fee.Some? then fee.value else Number(0);
            match f {
              case Unordered =>
                return [];
              case Number(amount) =>
                if amount > FeeThreshold {
                  if size.None? {
                    return [];
                  }
                  large := large + [Candidate(e.id, amount, size.value)];
                }
            }
        }
        assert forall j :: 0 <= j < i ==> entries[..i + 1][j] == entries[..i][j];
        i := i + 1;
      }
      assert entries[..n] == Scanned(entries);
      txs := large[..Min(|large|, MaxCandidates)];
    }

    /** `send_alert`: nothing for an empty batch; otherwise the header, one
        block per transaction appended in order, and one send. */
    method SendAlert(transactions: seq<Candidate>)
      modifies bot
      ensures bot.sent == old(bot.sent) + Dispatched(transactions)
    {
      if transactions == [] {
        assert Dispatched(transactions) == [];
        return;
      }
      var message := Header;
      assert transactions[..0] == [];
      assert Concat(Blocks([], 1)) == "";
      var i := 0;
      while i < |transactions|
        invariant 0 <= i <= |transactions|
        invariant message == AlertText(transactions[..i])
        invariant bot.sent == old(bot.sent)
      {
        AlertTextSnoc(transactions[..i], transactions[i]);
        assert transactions[..i] + [transactions[i]] == transactions[..i + 1];
        message := message + Block(i + 1, transactions[i]);
        i := i + 1;
      }
      assert transactions[..i] == transactions;
      assert Dispatched(transactions) == [message];
      bot.SendMessage(message);
    }

    /** `check_and_alert`: fetch, then alert if anything was found. */
    method CheckAndAlert(listing: Listing)
      modifies bot
      ensures bot.sent == old(bot.sent) + CycleMessages(listing)
    {
      var transactions := GetWhaleTransactions(listing);
      if transactions != [] {
        SendAlert(transactions);
      }
    }
  }
}
