# Barcode consensus of the inventory scanner

The inventory application reads a product's barcode from a phone camera.
`BarcodeScanner.read_barcode` does not trust a single decode. It reads frames
until ten of them have decoded a symbol. From each such frame it takes the
first payload the decoder reports and counts it in a dict from payload to
number of reads. It then reports `max(dict, key=dict.get)`, the payload read
most often.

This project models that majority vote in Dafny and proves what it computes.

- `tally.dfy`, module `Tally`, holds the pure definitions and their lemmas:
  - `FirstPayloads` gives the payloads a run of frames contributes.
  - `Frequencies` and `InsertionOrder` give the dict's counts and its key order.
  - `Record` and `TallyOf` count payloads one at a time, the way the loop does.
  - `MostCommon` is Python's `max` over a dict with a given key order.
  - `Consensus` is the reported barcode.
- `scanner.dfy`, module `Scanner`, holds the class `BarcodeScanner`. Its method
  `ReadBarcode` is the counting loop written imperatively. It keeps a `map` of
  counts and a `seq` of keys in insertion order, and is proved against
  `FirstPayloads` and `Consensus`.

The camera and the decoder are an input: a sequence holding, for each frame in
arrival order, the list of payloads the decoder found in it. The number of
decodes required is a parameter `required >= 1`. The constant
`Scanner.RequiredReads` (10) only records the value the source uses; every
member is stated for any `required`.

Ties go to the payload that became a dict key first. Python dicts iterate in
insertion order, and `max` replaces its current best only when a later key
has a strictly greater count. That key is the payload read first, which need
not be the payload that reached the top count first: for the reads "A", "B",
"A", "B" both rules give "A", but for "B", "A", "A", "B" the code gives "B"
(`Tally.InsertionOrderBreaksTies`).

## Model

| member | source | states |
|---|---|---|
| Tally.FirstPayloads | App.py:46-52 | the payloads the first k frames contribute, one per frame at most; its partner lemmas below state that empty frames and later payloads of a frame are ignored |
| Tally.FirstPayloadsGrow | App.py:46-52 | the payloads counted from the first k frames are a prefix of those counted from the first m >= k frames: reading on only appends |
| Tally.FirstPayloadsMonotone | App.py:47-52 | reading more frames never lowers the number of successful reads |
| Tally.OnlyFirstPayloadCounts | App.py:51 | replacing a frame's decode list by its first payload alone leaves the counted payloads unchanged: later payloads of a frame are ignored |
| Tally.EmptyFramesIgnored | App.py:47-49 | deleting a frame that decoded nothing leaves the counted payloads unchanged |
| Tally.PrefixUnchanged | App.py:46-52 | the counted payloads of the first k frames depend only on those k frames |
| Tally.Frequencies | App.py:54-57 | the dict's keys are exactly the payloads read, each with a count of at least 1 |
| Tally.FrequenciesSnoc | App.py:54-57 | one more read changes exactly one entry: a new payload enters with 1, a known one goes up by 1, every other count is unchanged |
| Tally.InsertionOrder | App.py:54-57 | the key order lists exactly the payloads read, each once |
| Tally.InsertionOrderSnoc | App.py:56-57 | helper: `Tally.InsertionOrder` unfolded at one more read, appending the payload only if it is not yet a key; the property of the order itself is `Tally.InsertedEarlierReadEarlier` |
| Tally.Record | App.py:54-57 | the dict update for one read; `Tally.RecordCounts` and `Tally.TotalRecord` state that it adds one read of its payload and raises the sum by 1 |
| Tally.TallyOf | App.py:35-57 | the dict the loop builds from the reads, starting empty; `Tally.TallyOfCounts` states that it holds each payload's number of reads with keys in first-read order |
| Tally.TallyOfCounts | App.py:35-57 | the dict built one read at a time maps every payload to the number of times it was read, with keys in the order of their first read |
| Tally.RecordCounts | App.py:54-57 | one recording step turns the dict of the earlier reads into the dict of all reads |
| Tally.InsertedEarlierReadEarlier | App.py:54-57 | a key inserted before key b was read before every read of b |
| Tally.TotalOtherKey | App.py:54-57 | changing the count of a payload outside a key list leaves the sum over that list unchanged |
| Tally.TotalBump | App.py:55 | adding 1 to the count of one key raises the sum of the counts by 1 |
| Tally.TotalRecord | App.py:52-57 | recording one read raises the sum of the dict's counts by 1 |
| Tally.TallyTotalSnoc | App.py:52-57 | one more read raises the sum of the counts by 1 |
| Tally.TallyTotal | App.py:35-57 | the counts in the dict add up to the number of successful reads |
| Tally.MaxIndexFrom | App.py:62 | `max` scanning from a position returns the index of a key of greatest count, with every earlier key strictly smaller |
| Tally.MostCommon | App.py:62 | `max(dict, key=dict.get)` returns a key; no key has a greater count; every key before it in iteration order has a strictly smaller count |
| Tally.TallyOfKeys | App.py:36-57 | the dict built from the reads has a key order listing each key once, and it is empty only when nothing was read |
| Tally.MostCommonTie | App.py:62 | a key tied with the one `max` selects comes after it in iteration order |
| Tally.Consensus | App.py:62 | the reported barcode is one of the payloads read |
| Tally.ConsensusIsMostFrequent | App.py:62 | every payload read was read at least once, and no more often than the reported barcode |
| Tally.StrictMajorityWins | App.py:62 | a payload read strictly more often than every other payload is the reported barcode |
| Tally.ConsensusTieBreak | App.py:54-62 | a payload tied with the reported barcode, but different from it, is preceded in the reads by the reported barcode |
| Tally.InsertionOrderBreaksTies | App.py:54-62 | the reads "B", "A", "A", "B" report "B", although "A" reached two reads first |
| Scanner.StopsAt | App.py:37-52 | reading stops right after frame `consumed - 1`: that frame decoded, it brought the successful reads to `required`, and the frames before it gave one fewer; `Scanner.BarcodeScanner.ReadBarcode` ensures it for every scan that succeeds |
| Scanner.StoppedTallyTotal | App.py:35-57 | when reading stops, the counts in the dict add up to the required number of reads |
| Scanner.BarcodeScanner.constructor | App.py:17-18 | the scanner keeps the camera address it is given |
| Scanner.BarcodeScanner.ReadBarcode | App.py:35-63 | the loop consumes frames until the required number have decoded and stops right after the frame giving the last one, and reports `Consensus` of the payloads those frames contributed; when the frames run out first it consumes them all and reports that fact |

## Left out

- Opening the camera and retrying with a one-second sleep and a warning (App.py:27-33): device I/O with no logic to model.
- Reading, resizing and previewing a frame (App.py:38-44), including the ignored `success` flag: OpenCV calls. A frame is only its decode list here.
- The symbol decoder and the UTF-8 decoding of a payload (App.py:46, 51): foreign calls. Their output is the input sequence, with payloads as strings.
- Releasing the camera and closing the windows (App.py:59-60): resource plumbing with no effect on the result.
- The progress message printed at App.py:26: output only.
- `Product`, `Inventory` and `main` (App.py:65-330): a plain record, SQL sent to MySQL, and a Streamlit UI.
- Prices are floating point (App.py:71, 93), outside the modelled core.
- Scanner.BarcodeScanner.ReadBarcode: `FramesRanOut` stands for two different source behaviours. If the stream ends or a read fails, the frame is `None` and App.py:39 raises `AttributeError`, leaving the camera unreleased. If frames keep arriving but never decode enough, the loop at App.py:37 spins forever. The model reports both as `FramesRanOut` once the finite input is used up.
- The exceptions of the source are not modelled: the `AttributeError` at App.py:39 on a missing frame, and the `UnicodeDecodeError` at App.py:51 on a payload that is not valid UTF-8. Payloads are already strings here.
- Scanner.BarcodeScanner.ReadBarcode: the sum of the counts is proved by `Tally.TallyTotal` and `Scanner.StoppedTallyTotal`, not carried as a loop invariant.
