/**
 The barcode scanner: reads frames until a fixed number of them have decoded,
 tallies the first payload of each, and reports the most frequent one.
 Frames are given as the decoder's output for each of them, in arrival order.
 */
module Scanner {
  import opened Tally

  /** How many frames must decode before the scanner reports a barcode. */
  const RequiredReads: nat := 10

  /** What a scan produces: the barcode, or the report that the frames ran out
      before enough of them decoded. */
  datatype ScanOutcome = Scanned(barcode: string) | FramesRanOut

  /** Frame `consumed - 1` decoded and was the `required`-th frame to do so:
      reading stops right after it. */
  ghost predicate StopsAt(frames: seq<DecodeList>, consumed: nat, required: nat)
  {
    && 0 < consumed <= |frames|
    && |frames[consumed - 1]| > 0
    && |FirstPayloads(frames, consumed - 1)| == required - 1
    && |FirstPayloads(frames, consumed)| == required
  }

  /** When reading stops, the counts in the dict add up to the number of
      frames that had to decode. */
  lemma StoppedTallyTotal(frames: seq<DecodeList>, consumed: nat, required: nat)
    requires StopsAt(frames, consumed, required)
    ensures var payloads := FirstPayloads(frames, consumed);
      Total(InsertionOrder(payloads), Frequencies(payloads)) == required
  {
    TallyTotal(FirstPayloads(frames, consumed));
  }

  class BarcodeScanner {
    /** The address of the camera the scanner opens. */
    const cameraIp: string

    constructor (cameraIp: string)
      ensures this.cameraIp == cameraIp
    {
      this.cameraIp := cameraIp;
    }

    /** Reads `frames` in order until `required` of them have decoded a
        payload, then reports the most frequent first payload. `consumed` is
        the number of frames read. */
    method ReadBarcode(frames: seq<DecodeList>, required: nat) returns (outcome: ScanOutcome, consumed: nat)
      requires required >= 1
      ensures consumed <= |frames|
      ensures outcome.FramesRanOut? <==> |FirstPayloads(frames, |frames|)| < required
      ensures outcome.FramesRanOut? ==> consumed == |frames|
      ensures outcome.Scanned? ==> StopsAt(frames, consumed, required)
      ensures outcome.Scanned? ==> outcome.barcode == Consensus(FirstPayloads(frames, consumed))
    {
      var readingCount := 0;
      var barcodeFrequency: map<string, nat> := map[];
      var insertionOrder: seq<string> := [];
      ghost var counted: seq<string> := [];
      consumed := 0;
      while readingCount < required && consumed < |frames|
        invariant consumed <= |frames| && readingCount <= required
        invariant counted == FirstPayloads(frames, consumed)
        invariant readingCount == |counted|
        invariant Tally(barcodeFrequency, insertionOrder) == TallyOf(counted)
        invariant readingCount == required ==> StopsAt(frames, consumed, required)
      {
        var barcodes := frames[consumed];
        consumed := consumed + 1;
        if |barcodes| == 0 {
          continue;
        }
        var decodedBarcode := barcodes[0];
        readingCount := readingCount + 1;
        if decodedBarcode in barcodeFrequency {
          barcodeFrequency := barcodeFrequency[decodedBarcode := barcodeFrequency[decodedBarcode] + 1];
        } else {
          barcodeFrequency := barcodeFrequency[decodedBarcode := 1];
          insertionOrder := insertionOrder + [decodedBarcode];
        }
        assert (counted + [decodedBarcode])[..|counted|] == counted;
        counted := counted + [decodedBarcode];
      }
      if readingCount < required {
        outcome := FramesRanOut;
      } else {
        FirstPayloadsMonotone(frames, consumed, |frames|);
        TallyOfKeys(counted);
        outcome := Scanned(MostCommon(insertionOrder, barcodeFrequency));
      }
    }
  }
}
