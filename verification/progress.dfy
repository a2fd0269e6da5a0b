/**
 What the caller sees while the tool runs, and how the run is judged. The read
 loop takes one line of the tool's merged output at a time; it ends at the
 first empty read after the process has exited, hands every non-empty read,
 stripped of surrounding white space, to the progress callback when one is
 set, and afterwards a non-zero return code fails the download.
 */
module Progress {
  import opened Text

  /** One turn of the read loop: what `readline()` returned (the line with its
      newline, or empty at end of output) and whether `poll()` then reported
      the process as exited. */
  datatype ReadEvent = ReadEvent(output: string, exited: bool)

  /** The read that ends the loop: nothing left to read and the process gone. */
  predicate EndsLoop(e: ReadEvent) {
    e.output == "" && e.exited
  }

  /** How many reads the loop handles before the one that ends it; all of them
      if none ends it. */
  function ReadsBeforeEnd(events: seq<ReadEvent>): (k: nat)
    ensures k <= |events|
    ensures forall j :: 0 <= j < k ==> !EndsLoop(events[j])
    ensures k < |events| ==> EndsLoop(events[k])
  {
    if events == [] || EndsLoop(events[0]) then 0 else 1 + ReadsBeforeEnd(events[1..])
  }

  /** The text of each read, in order. */
  function Outputs(events: seq<ReadEvent>): (lines: seq<string>)
    ensures |lines| == |events|
    ensures forall i :: 0 <= i < |events| ==> lines[i] == events[i].output
  {
    seq(|events|, i requires 0 <= i < |events| => events[i].output)
  }

  /** What the callback receives for a series of reads, one read at a time:
      a read adds its stripped text when it is non-empty and a callback is
      set, and nothing otherwise. */
  function Forwarded(lines: seq<string>, hasCallback: bool): (sent: seq<string>)
    ensures !hasCallback ==> sent == []
    ensures |sent| <= |lines|
    decreases |lines|
  {
    if !hasCallback || lines == [] then []
    else
      var last := lines[|lines| - 1];
      Forwarded(lines[..|lines| - 1], hasCallback) + (if last != "" then [Strip(last)] else [])
  }

  /** The positions of the non-empty reads, in increasing order, each once. */
  function NonEmptyPositions(lines: seq<string>): (idx: seq<int>)
    ensures forall k :: 0 <= k < |idx| ==> 0 <= idx[k] < |lines| && lines[idx[k]] != ""
    ensures forall k1, k2 :: 0 <= k1 < k2 < |idx| ==> idx[k1] < idx[k2]
    ensures forall i :: 0 <= i < |lines| && lines[i] != "" ==> i in idx
    decreases |lines|
  {
    if lines == [] then []
    else
      var n := |lines| - 1;
      var front := lines[..n];
      var before := NonEmptyPositions(front);
      assert forall k :: 0 <= k < |before| ==> lines[before[k]] == front[before[k]];
      before + (if lines[n] != "" then [n] else [])
  }

  /** The callback receives exactly the stripped non-empty reads, in the order
      they were read, each once. */
  lemma {:induction false} ForwardedIsStrippedNonEmptyReads(lines: seq<string>)
    ensures |Forwarded(lines, true)| == |NonEmptyPositions(lines)|
    ensures forall k :: 0 <= k < |NonEmptyPositions(lines)| ==>
              Forwarded(lines, true)[k] == Strip(lines[NonEmptyPositions(lines)[k]])
    decreases |lines|
  {
    if lines != [] {
      var n := |lines| - 1;
      var front := lines[..n];
      ForwardedIsStrippedNonEmptyReads(front);
      var before := NonEmptyPositions(front);
      var earlier := Forwarded(front, true);
      var sent := Forwarded(lines, true);
      var idx := NonEmptyPositions(lines);
      var last := if lines[n] != "" then [Strip(lines[n])] else [];
      assert sent == earlier + last;
      assert idx == before + (if lines[n] != "" then [n] else []);
      forall k | 0 <= k < |idx|
        ensures sent[k] == Strip(lines[idx[k]])
      {
        if k < |before| {
          assert sent[k] == earlier[k];
          assert lines[before[k]] == front[before[k]];
        }
      }
    }
  }

  /** Forwarding is streaming: the reads of a later stretch only add to the
      end of what earlier reads produced. */
  lemma {:induction false} ForwardedAppend(a: seq<string>, b: seq<string>, hasCallback: bool)
    ensures Forwarded(a + b, hasCallback) == Forwarded(a, hasCallback) + Forwarded(b, hasCallback)
    decreases |b|
  {
    if hasCallback {
      if b == [] {
        assert a + b == a;
      } else {
        var n := |b| - 1;
        assert (a + b)[..|a + b| - 1] == a + b[..n];
        assert (a + b)[|a + b| - 1] == b[n];
        ForwardedAppend(a, b[..n], hasCallback);
      }
    }
  }

  /** The read loop: read until the ending read, forwarding as it goes. */
  method Pump(events: seq<ReadEvent>, hasCallback: bool) returns (sent: seq<string>)
    ensures sent == Forwarded(Outputs(events[..ReadsBeforeEnd(events)]), hasCallback)
  {
    sent := [];
    var i := 0;
    while i < |events|
      invariant 0 <= i <= ReadsBeforeEnd(events)
      invariant sent == Forwarded(Outputs(events[..i]), hasCallback)
    {
      var output := events[i].output;
      if output == "" && events[i].exited {
        break;
      }
      assert Outputs(events[..i + 1]) == Outputs(events[..i]) + [output];
      if output != "" && hasCallback {
        sent := sent + [Strip(output)];
      }
      i := i + 1;
    }
  }

  /** How a finished download is reported. */
  datatype Outcome = Completed | Failed

  /** Any non-zero return code fails the download; zero completes it. */
  function Verdict(returnCode: int): (o: Outcome)
    ensures o == Completed <==> returnCode == 0
    ensures o == Failed <==> returnCode != 0
  {
    if returnCode != 0 then Failed else Completed
  }
}
