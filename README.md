# Bitcoin whale tracker — a verified model of its core

The tracker polls the mempool listing of mempool.space. It picks out transactions whose fee exceeds 50,000 satoshi and sends a Telegram alert listing up to five of them. This project models the three steps of one polling cycle of the `WhaleTracker` class in `main.py`:

- **Selection** (`get_whale_transactions`). Scan the first 100 entries of the decoded listing in the order the body lists them. Keep those whose `fee` is above 50,000, reading a missing `fee` as 0. Build an `{id, fee, size}` record for each and report the first five in scan order. Anything that raises during the scan is caught, and the report is then empty, never partial. An entry can raise in three ways: its metadata is not an object, its `fee` is a value Python cannot compare with an integer, or it qualifies but has no `size`.
- **Alert text** (`send_alert`). A fixed header, then one block per transaction, numbered from 1. Each block shows the fee with thousands commas (`{:,}`), the size, and the first 20 characters of the id followed by `...`. It ends with a divider line.
- **Send or skip** (`check_and_alert`). An alert goes to the bot only when the selection is not empty.

Files:

- `number_format.dfy` (module `NumberFormat`): Python's `str` and `format(x, ",")` for integers, with parsers as their inverses.
- `mempool.dfy` (module `Mempool`): the decoded listing, what one scan step does with an entry (`Examine`), and the selection rule as functions (`Qualifying`, `Candidates`).
- `alert.dfy` (module `Alert`): the alert text and a parser that reads it back. The alert text is built from `Header`, `BlockPieces`, `Block`, `Blocks` and `AlertText`. The Persian labels, the emoji and the Markdown markers are opaque string constants with the source's exact text.
- `tracker.dfy` (module `Tracker`): two classes. `Bot` records every text handed to it. `WhaleTracker` has the methods `GetWhaleTransactions` and `SendAlert`, each built around the source's loop, and `CheckAndAlert`, the send-or-skip branch that joins them. Each method is proved against the functions above.

The alert parser exists to state what the rendering preserves. Each shown id has at most 20 characters. The text after it (`` ...` ``, a newline and the divider) is 23 characters long, and it has no proper prefix that is also its suffix. Therefore the end of every id is found unambiguously, whatever characters the id contains. `AlertRoundTrip` uses this to prove that the alert for N transactions reads back as exactly N blocks. Block i carries i and the i-th transaction's fee, size and shortened id.

Three behaviours of `main.py` worth knowing:
- The id is shown as its first `min(20, |id|)` characters, so a shorter id is shown whole.
- The HTTP status code is never checked. A non-2xx response whose body decodes to a mapping is scanned like any other; one that does not decode is `Listing.Unavailable`.
- A qualifying entry without `size` raises `KeyError`. That empties the whole report.

## Model

| member | source | states |
|---|---|---|
| `NumberFormat.NatToString` | main.py:48 | `str(i)` of the block number: a non-empty run of decimal digits, with a leading `0` only for 0, and one digit exactly when the number is below 10 |
| `NumberFormat.IntToString` | main.py:50 | `str(size)`: non-empty, starting with a minus sign exactly for a negative number, digits only otherwise; `IntRoundTrip` shows that it reads back as the number |
| `NumberFormat.GroupedNat` | main.py:49 | `format(n, ",")` for a natural number: non-empty, starting with a digit, and that digit is `0` only for 0; `StripGroupedNat` and `GroupedNatLayout` give its digits and comma layout |
| `NumberFormat.WithCommas` | main.py:49 | `{fee:,}`: non-empty, starting with a minus sign exactly for a negative fee; `StripWithCommas` gives its digits and `WithCommasLayout` its comma positions |
| `NumberFormat.NatRoundTrip` | main.py:48 | reading the digits of `str(n)` back gives `n` |
| `NumberFormat.CanonicalRoundTrip` | main.py:48 | the other direction: every digit string without a leading zero is `str` of its value |
| `NumberFormat.IntRoundTrip` | main.py:50 | reading `str(x)` back, sign included, gives `x` for every integer, so the printed size is exact |
| `NumberFormat.StripGroupedNat` | main.py:49 | removing the commas from `format(n, ",")` gives `str(n)` |
| `NumberFormat.StripWithCommas` | main.py:49 | the same for any integer fee, minus sign included |
| `NumberFormat.GroupedNatLayout` | main.py:49 | `format(n, ",")` puts a comma at exactly every fourth position from the right and digits everywhere else, with no leading comma and no leading zero |
| `NumberFormat.WithCommasLayout` | main.py:49 | the rendered fee, after its minus sign if negative, has a comma at exactly every fourth position from the right, digits elsewhere, and no leading comma or zero |
| `NumberFormat.WithCommasChars` | main.py:49 | a rendered fee consists only of digits, commas and a minus sign |
| `Mempool.Examine` | main.py:27-31 | one scan step: it keeps a record exactly when the metadata is an object with an integer fee above 50,000 and a size, and the record carries the entry's id, fee and size; a missing fee is passed over; it raises exactly for a non-object, for a fee that cannot be compared, or for a qualifying entry without size |
| `Mempool.Scanned` | main.py:26 | `list(mempool.items())[:100]`: a prefix of the listing, of length `min(|entries|, 100)`; `CandidatesIgnoreTail` shows that later entries never matter |
| `Mempool.AnyRaises` | main.py:26-39 | whether the scan raises somewhere; when it does not, every scanned entry is an object whose fee, if present, is an integer; `RaisingEntryEmptiesReport` shows that a raise empties the report |
| `Mempool.Qualifying` | main.py:25-32 | the records of an uninterrupted scan are no more than the entries, and each has a fee above 50,000 |
| `Mempool.Candidates` | main.py:20-39 | a fetch reports at most five records, each with a fee above 50,000 |
| `Mempool.QualifyingAppend` | main.py:26-32 | scan order is kept: the records of `a + b` are those of `a` followed by those of `b` |
| `Mempool.QualifyingMembers` | main.py:26-32 | a record is collected if and only if some scanned entry yields it |
| `Mempool.CandidatesFromScannedEntries` | main.py:26-32 | every reported record is one of the first 100 entries, with that entry's id, fee and size |
| `Mempool.CandidatesIgnoreTail` | main.py:26 | entries after the hundredth never change the report |
| `Mempool.CandidatesOfShortListing` | main.py:26-35 | a listing of at most 100 entries, none of which raises, is scanned in full, and the report is the first `min(5, k)` of its k records |
| `Mempool.RaisingEntryEmptiesReport` | main.py:27-39 | one raising entry among the first 100 empties the report, however many records came before it |
| `Mempool.CandidatesInScanOrder` | main.py:25-35 | the report is a prefix of the records in scan order; once five records are found in the first k entries, the report is those five, whatever follows, as long as no scanned entry raises |
| `Mempool.ThreeLargeOrSmallEntries` | main.py:25-35 | fees 60,000, 10,000 and 99,999, then an entry without fee, report the first and third entries in listing order, not sorted by fee |
| `Alert.ShortId` | main.py:51 | the shown id is a prefix of the id, of length `min(20, |id|)` |
| `Alert.Block` | main.py:48-52 | the five lines for one transaction, joined from `BlockPieces`; it starts with the number's label, and `ParseBlockOfBlock` reads the number, fee, size and shown id back |
| `Alert.AlertText` | main.py:46-52 | the whole message: it starts with the header, and is the header alone exactly for an empty batch; `AlertRoundTrip` reads back its blocks |
| `Alert.ConcatSnoc` | main.py:47-52 | appending one more piece to a joined message appends its text |
| `Alert.AlertTextSnoc` | main.py:46-52 | the alert for `txs + [tx]` is the alert for `txs` followed by the block of `tx`, numbered `|txs| + 1` |
| `Alert.ParseBlockOfBlock` | main.py:48-52 | a block, followed by any text, reads back as its number, fee, size and shortened id, and leaves that text |
| `Alert.NoEarlyIdEnd` | main.py:51-52 | the end of a shown id cannot be mistaken to lie inside it |
| `Alert.AlertRoundTrip` | main.py:46-52 | the alert for N transactions is the header and exactly N blocks; block i shows i and the i-th transaction's fee, size and first 20 characters of id |
| `Tracker.Dispatched` | main.py:43-44 | `send_alert` hands the bot at most one text, and none exactly when the batch is empty |
| `Tracker.CycleMessages` | main.py:64-70 | one cycle hands the bot at most one text, none exactly when the fetch found nothing, and each text starts with the alert header |
| `Tracker.CycleAlert` | main.py:64-70 | a cycle sends one alert if the fetch found something and none otherwise; the alert reads back as one to five blocks numbered from 1, each with a fee above 50,000 |
| `Tracker.Bot.SendMessage` | main.py:55-59 | the bot receives the text, after everything sent before |
| `Tracker.WhaleTracker.constructor` | main.py:13-16 | the tracker sends through the bot it is given |
| `Tracker.WhaleTracker.GetWhaleTransactions` | main.py:18-39 | the scan loop, with its early exits on each raising entry, returns exactly `Candidates(listing)` |
| `Tracker.WhaleTracker.SendAlert` | main.py:41-62 | an empty batch sends nothing; otherwise the message grown block by block equals `AlertText` and the bot receives exactly it |
| `Tracker.WhaleTracker.CheckAndAlert` | main.py:64-70 | the bot receives exactly the messages of one cycle: the alert when the fetch found something, nothing otherwise |

## Left out

- The HTTP GET, its 10-second timeout and JSON decoding (main.py:22-23) are network I/O. Their outcome is the input: `Listing.Parsed` with the entries in body order, or `Listing.Unavailable` for every failure, including a body without `.items()`.
- Reading `TELEGRAM_TOKEN` and `TELEGRAM_CHAT_ID` from the environment and constructing the Telegram `Bot` (main.py:14-16) are configuration. The tracker is given its bot.
- `Tracker.Bot.SendMessage` does not model the chat id, the Markdown parse mode, delivery or its failure (main.py:55-62). A failed send is only logged, so the model records every text handed to the bot.
- All logging calls: they have no functional effect.
- The scheduler, the 20-minute interval and the interrupt handling in `start` (main.py:72-86), and the entry point (main.py:88-90): timers and process lifecycle.
- JSON floating-point numbers are not modelled. A fee such as 60000.5 would be selected and rendered with a fraction; fees are integers here (a boolean compares as 0 or 1 and is never selected).
- Sizes that are not integers are not modelled. The source would copy such a value and print it with `str`; sizes are integers here.
- Duplicate ids in the input sequence are not excluded. A decoded JSON object cannot have them, and nothing in the model depends on it.
- `Tracker.WhaleTracker.SendAlert` appends each block in one step where the source uses five `+=` statements. The resulting text is the same.
- Markdown and emoji semantics of the message: the labels are opaque constants.
- Calling the alert rendering twice on the same input gives the same text. This needs no lemma: Dafny functions are deterministic.
