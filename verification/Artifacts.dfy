/**
 The post-call pipeline and the spam register: `process_call_artifacts`, `trigger_post_call_processing` and
 `_register_spam_caller` in backend/app/services/artifact_service.py, and the polling loop
 `process_pending_artifacts` in backend/app/workers/post_call.py.
*/
module Artifacts {

  import opened Options
  import opened Products

  datatype PartStatus = Pending | Processing | Ready | Failed | NotAvailable

  /** An artifact row with the flags of its call. `hasRef`: a provider conversation is linked; `extracted`: the
      structured extraction is set; `registrations`: how often this call was entered in the spam register. */
  datatype Item = Item(
    hasRef: bool, transcript: PartStatus, summary: PartStatus, labels: PartStatus, extracted: bool,
    missingTranscript: bool, missingSummary: bool, missingLabels: bool, registrations: nat)

  /** What the provider returns for a conversation: no data yet, or data with or without caller turns. */
  datatype Fetched = NoData | Data(hasTurns: bool)

  /** What one pass meets outside: the provider's answer, and whether the labels call it spam
      from a caller with a known number. */
  datatype Answer = Answer(fetched: Fetched, spam: bool)

  predicate Unresolved(s: PartStatus) {
    s == Pending || s == Processing
  }

  predicate Done(s: PartStatus) {
    s == Ready || s == Failed || s == NotAvailable
  }

  predicate AllDone(i: Item) {
    Done(i.summary) && Done(i.labels) && Done(i.transcript)
  }

  /** The rows the worker's query selects. */
  predicate Selected(i: Item) {
    Unresolved(i.summary) || Unresolved(i.labels) || Unresolved(i.transcript)
  }

  /** The provider is asked only when a conversation is linked and the transcript is open or ready. */
  function Seen(i: Item, a: Answer): Fetched {
    if i.hasRef && (Unresolved(i.transcript) || i.transcript == Ready) then a.fetched else NoData
  }

  function TranscriptPart(i: Item, data: Fetched): Item {
    if Unresolved(i.transcript) && i.hasRef then
      if data.Data? then i.(transcript := Ready, missingTranscript := false) else i.(transcript := Processing)
    else i
  }

  function SummaryPart(i: Item, data: Fetched): Item {
    if Unresolved(i.summary) then
      if data.Data? then i.(summary := Ready, extracted := true, missingSummary := false)
      else if i.transcript == Failed then i.(summary := Failed)
      else i
    else i
  }

  function LabelsPart(i: Item, data: Fetched, spam: bool): Item {
    if Unresolved(i.labels) then
      if (data.Data? && data.hasTurns) || i.extracted then
        i.(labels := Ready, missingLabels := false, registrations := if spam then i.registrations + 1 else i.registrations)
      else if i.transcript == Failed then i.(labels := Failed)
      else i
    else i
  }

  /** How far one pass of the worker gets: an exception after that many stages (transcript, summary, labels, billing)
      is caught by the worker, which commits what the row holds by then; or the pass completes. */
  datatype Ending = Raised(stages: nat) | Completed

  function Stages(e: Ending): nat {
    match e
    case Raised(n) => n
    case Completed => 4
  }

  /** The row after the first n stages of a pass. A stage that raises has not assigned anything yet; an exception while
      a caller is being registered counts as one after the labels, with `spam` saying whether the entry was made. */
  function PassUpTo(i: Item, a: Answer, n: nat): Item {
    var data := Seen(i, a);
    var j := if 1 <= n then TranscriptPart(i, data) else i;
    var k := if 2 <= n then SummaryPart(j, data) else j;
    if 3 <= n then LabelsPart(k, data, a.spam) else k
  }

  datatype Attempt = Attempt(answer: Answer, ending: Ending)

  function Attempted(i: Item, t: Attempt): Item {
    PassUpTo(i, t.answer, Stages(t.ending))
  }

  /** `trigger_post_call_processing` on an existing row: its conversation link is not updated. */
  function Trigger(i: Item): Item {
    i.(transcript := if i.transcript == Pending then Processing else i.transcript,
       summary := if i.summary == Pending then Processing else i.summary,
       labels := if i.labels == Pending then Processing else i.labels)
  }

  function Fresh(hasRef: bool): Item {
    Item(hasRef, Pending, Pending, Pending, false, true, true, true, 0)
  }

  datatype Step = Poll(attempt: Attempt) | Triggered

  function Perform(i: Item, s: Step): Item {
    match s
    case Poll(t) => Attempted(i, t)
    case Triggered => Trigger(i)
  }

  function After(i: Item, run: seq<Step>): Item
    decreases |run|
  {
    if run == [] then i else After(Perform(i, run[0]), run[1..])
  }

  /** A pass that reports everything done takes the row out of the worker's query, and no other pass does. */
  lemma DoneMeansUnselected(i: Item, t: Attempt)
    ensures AllDone(Attempted(i, t)) <==> !Selected(Attempted(i, t))
  {
  }

  // ---------------------------------------------------------------------------------------------
  // Atomicity
  // ---------------------------------------------------------------------------------------------

  predicate AllReady(i: Item) {
    i.transcript == Ready && i.summary == Ready && i.labels == Ready
  }

  predicate AllUnresolved(i: Item) {
    Unresolved(i.transcript) && Unresolved(i.summary) && Unresolved(i.labels)
  }

  /** Each `missing_*` flag is the negation of its ready status. */
  predicate FlagsMirror(i: Item) {
    && (i.missingTranscript <==> i.transcript != Ready)
    && (i.missingSummary <==> i.summary != Ready)
    && (i.missingLabels <==> i.labels != Ready)
  }

  /** The four states a fresh artifact goes through: nothing ready; the transcript; the summary too; everything. */
  ghost predicate InPhase(i: Item, p: nat) {
    && FlagsMirror(i)
    && match p
       case 0 => AllUnresolved(i) && !i.extracted && i.registrations == 0
       case 1 =>
         && i.transcript == Ready && Unresolved(i.summary) && Unresolved(i.labels)
         && !i.extracted && i.registrations == 0
       case 2 =>
         && i.transcript == Ready && i.summary == Ready && Unresolved(i.labels)
         && i.extracted && i.registrations == 0
       case 3 => AllReady(i) && i.extracted && i.registrations <= 1
       case _ => false
  }

  /** The next state, from what the provider answered and how far the pass got. */
  function Advance(hasRef: bool, p: nat, s: Step): nat {
    if s.Triggered? || 3 <= p then p
    else
      var n, seen := Stages(s.attempt.ending), hasRef && s.attempt.answer.fetched.Data?;
      if p == 2 then if 3 <= n then 3 else 2
      else if !seen || n == 0 then p
      else if n <= 3 then n else 3
  }

  function PhaseAfter(hasRef: bool, p: nat, run: seq<Step>): nat
    decreases |run|
  {
    if run == [] then p else PhaseAfter(hasRef, Advance(hasRef, p, run[0]), run[1..])
  }

  lemma PassFromStart(i: Item, t: Attempt)
    requires InPhase(i, 0)
    ensures InPhase(Attempted(i, t), Advance(i.hasRef, 0, Poll(t))) && Attempted(i, t).hasRef == i.hasRef
  {
    var data := Seen(i, t.answer);
    var j := TranscriptPart(i, data);
    assert j.transcript != Failed && !j.extracted && (data.Data? ==> j.transcript == Ready);
    assert data.Data? ==> SummaryPart(j, data).extracted;
  }

  lemma PassFromTranscript(i: Item, t: Attempt)
    requires InPhase(i, 1) && i.hasRef
    ensures InPhase(Attempted(i, t), Advance(true, 1, Poll(t))) && Attempted(i, t).hasRef
  {
    var data := Seen(i, t.answer);
    assert TranscriptPart(i, data) == i && data == t.answer.fetched;
  }

  lemma PassFromSummary(i: Item, t: Attempt)
    requires InPhase(i, 2)
    ensures InPhase(Attempted(i, t), Advance(i.hasRef, 2, Poll(t))) && Attempted(i, t).hasRef == i.hasRef
  {
    var data := Seen(i, t.answer);
    assert TranscriptPart(i, data) == i == SummaryPart(i, data);
  }

  lemma PassOverReady(i: Item, t: Attempt)
    requires AllReady(i)
    ensures Attempted(i, t) == i
  {
  }

  lemma StepAdvances(i: Item, p: nat, s: Step)
    requires InPhase(i, p) && (p == 1 ==> i.hasRef)
    ensures
      var q := Advance(i.hasRef, p, s);
      InPhase(Perform(i, s), q) && (q == 1 ==> i.hasRef) && Perform(i, s).hasRef == i.hasRef
  {
    if s.Poll? {
      match p
      case 0 => PassFromStart(i, s.attempt);
      case 1 => PassFromTranscript(i, s.attempt);
      case 2 => PassFromSummary(i, s.attempt);
      case 3 => PassOverReady(i, s.attempt);
    }
  }

  /** In every run the artifact is in the state its passes have reached: the flags mirror the statuses and the caller was
      registered as spam at most once, wherever passes raised. */
  lemma {:induction false} RunAdvances(i: Item, p: nat, run: seq<Step>)
    requires InPhase(i, p) && (p == 1 ==> i.hasRef)
    ensures InPhase(After(i, run), PhaseAfter(i.hasRef, p, run))
    decreases |run|
  {
    if run != [] {
      StepAdvances(i, p, run[0]);
      RunAdvances(Perform(i, run[0]), Advance(i.hasRef, p, run[0]), run[1..]);
    }
  }

  /** The pass got data and at least n stages were done. */
  predicate WithData(s: Step, n: nat) {
    s.Poll? && s.attempt.answer.fetched.Data? && n <= Stages(s.attempt.ending)
  }

  /** The pass got data and stopped between transcript and summary. */
  predicate StoppedShort(s: Step) {
    WithData(s, 1) && !WithData(s, 2)
  }

  predicate ReachedLabels(s: Step) {
    s.Poll? && 3 <= Stages(s.attempt.ending)
  }

  ghost predicate Any(run: seq<Step>, p: Step -> bool) {
    exists k :: 0 <= k < |run| && p(run[k])
  }

  lemma AnyCons(run: seq<Step>, p: Step -> bool)
    requires run != []
    ensures Any(run, p) <==> p(run[0]) || Any(run[1..], p)
  {
    if k :| 0 <= k < |run| && p(run[k]) {
      assert k != 0 ==> run[1..][k - 1] == run[k];
    }
    if k :| 0 <= k < |run[1..]| && p(run[1..][k]) {
      assert run[k + 1] == run[1..][k];
    }
  }

  /** Some pass with data got past the summary, and this or a later pass reached the labels. */
  ghost predicate Finishes(run: seq<Step>)
    decreases |run|
  {
    run != [] && ((WithData(run[0], 2) && Any(run, ReachedLabels)) || Finishes(run[1..]))
  }

  lemma {:induction false} PhaseFromSummary(hasRef: bool, run: seq<Step>)
    ensures PhaseAfter(hasRef, 2, run) == if Any(run, ReachedLabels) then 3 else 2
    decreases |run|
  {
    if run != [] {
      AnyCons(run, ReachedLabels);
      PhaseFromSummary(hasRef, run[1..]);
      if ReachedLabels(run[0]) {
        PhaseStays(hasRef, run[1..]);
      }
    }
  }

  lemma {:induction false} PhaseStays(hasRef: bool, run: seq<Step>)
    ensures PhaseAfter(hasRef, 3, run) == 3
    decreases |run|
  {
    if run != [] {
      PhaseStays(hasRef, run[1..]);
    }
  }

  /** The state a run reaches, read off its passes. */
  lemma {:induction false} PhaseIsReadOff(hasRef: bool, p: nat, run: seq<Step>)
    requires p == 0 || (p == 1 && hasRef)
    ensures
      var q := PhaseAfter(hasRef, p, run);
      && q <= 3
      && (q == 3 <==> hasRef && Finishes(run))
      && (2 <= q <==> hasRef && Any(run, s => WithData(s, 2)))
      && (1 <= q <==> p == 1 || (hasRef && Any(run, s => WithData(s, 1))))
    decreases |run|
  {
    if run != [] {
      var q, rest := Advance(hasRef, p, run[0]), run[1..];
      AnyCons(run, s => WithData(s, 1));
      AnyCons(run, s => WithData(s, 2));
      AnyCons(run, ReachedLabels);
      if q <= 1 {
        PhaseIsReadOff(hasRef, q, rest);
      } else {
        PhaseFromSummary(hasRef, rest);
        PhaseStays(hasRef, rest);
        FinishesNeedsLabels(rest);
      }
    }
  }

  lemma {:induction false} FinishesNeedsLabels(run: seq<Step>)
    ensures Finishes(run) ==> Any(run, ReachedLabels)
    decreases |run|
  {
    if run != [] {
      AnyCons(run, ReachedLabels);
      FinishesNeedsLabels(run[1..]);
    }
  }

  /** Completion: an artifact becomes ready if and only if a conversation is linked, some pass with data got past the
      summary, and this or a later pass reached the labels. */
  lemma CompletesIffFinished(hasRef: bool, run: seq<Step>)
    ensures AllReady(After(Fresh(hasRef), run)) <==> hasRef && Finishes(run)
  {
    RunAdvances(Fresh(hasRef), 0, run);
    PhaseIsReadOff(hasRef, 0, run);
  }

  lemma {:induction false} CompletedPassFinishes(run: seq<Step>)
    requires run != [] && ReachedLabels(run[|run| - 1])
    ensures Finishes(run) <==> Any(run, s => WithData(s, 2))
    decreases |run|
  {
    AnyCons(run, s => WithData(s, 2));
    assert Any(run, ReachedLabels);
    if 1 < |run| {
      CompletedPassFinishes(run[1..]);
    }
  }

  /** After every completed pass the flags mirror the statuses and the caller was registered at most once. The artifact is
      ready exactly when some pass with data got past the summary; and transcript, summary and labels are all ready or all
      unresolved, unless a pass with data stopped between transcript and summary and none has got further since. */
  lemma AtomicIffNoneStoppedShort(hasRef: bool, run: seq<Step>)
    requires run != [] && run[|run| - 1].Poll? && run[|run| - 1].attempt.ending == Completed
    ensures
      var i := After(Fresh(hasRef), run);
      && FlagsMirror(i) && i.registrations <= 1
      && (AllReady(i) <==> hasRef && Any(run, s => WithData(s, 2)))
      && (AllReady(i) || AllUnresolved(i)
          <==> !(hasRef && Any(run, StoppedShort) && !Any(run, s => WithData(s, 2))))
  {
    RunAdvances(Fresh(hasRef), 0, run);
    PhaseIsReadOff(hasRef, 0, run);
    CompletedPassFinishes(run);
    if k :| 0 <= k < |run| && WithData(run[k], 1) {
      assert StoppedShort(run[k]) || Any(run, s => WithData(s, 2)) by {
        if !StoppedShort(run[k]) {
          assert WithData(run[k], 2);
        }
      }
    }
  }

  /** The least failing run: data on which the summary raises, and nothing at the next poll. */
  lemma StoppedPassSplitsArtifact()
    ensures
      var run := [Poll(Attempt(Answer(Data(true), false), Raised(1))), Poll(Attempt(Answer(NoData, false), Completed))];
      var i := After(Fresh(true), run);
      i.transcript == Ready && Unresolved(i.summary) && Unresolved(i.labels)
  {
    var first := Poll(Attempt(Answer(Data(true), false), Raised(1)));
    var second := Poll(Attempt(Answer(NoData, false), Completed));
    assert [first, second][1..] == [second] && [second][1..] == [];
  }

  ghost predicate Advances(i: Item, j: Item) {
    && (i.transcript == Ready ==> j.transcript == Ready)
    && (i.summary == Ready ==> j.summary == Ready)
    && (i.labels == Ready ==> j.labels == Ready)
    && (FlagsMirror(i) ==> FlagsMirror(j))
    && i.registrations <= j.registrations
    && (i.registrations < j.registrations ==>
          i.labels != Ready && j.labels == Ready && j.registrations == i.registrations + 1)
  }

  lemma TranscriptAdvances(i: Item, data: Fetched)
    ensures var j := TranscriptPart(i, data); Advances(i, j) && j.registrations == i.registrations && j.labels == i.labels
  {
  }

  lemma SummaryAdvances(i: Item, data: Fetched)
    ensures var j := SummaryPart(i, data); Advances(i, j) && j.registrations == i.registrations && j.labels == i.labels
  {
  }

  lemma LabelsAdvance(i: Item, data: Fetched, spam: bool)
    ensures Advances(i, LabelsPart(i, data, spam))
  {
  }

  /** Whatever state an artifact is in, a part that is ready stays ready with its flag, and the registrations change
      only in the pass that makes the labels ready, and then by one. */
  lemma ReadyNeverRegresses(i: Item, s: Step)
    ensures Advances(i, Perform(i, s))
  {
    if s.Poll? {
      var a := s.attempt.answer;
      var data := Seen(i, a);
      TranscriptAdvances(i, data);
      SummaryAdvances(TranscriptPart(i, data), data);
      LabelsAdvance(SummaryPart(TranscriptPart(i, data), data), data, a.spam);
    }
  }

  /** The first pass that makes the artifact ready calls it spam. */
  function LabelledSpam(hasRef: bool, p: nat, run: seq<Step>): bool
    decreases |run|
  {
    if run == [] || 3 <= p then false
    else if Advance(hasRef, p, run[0]) == 3 then run[0].attempt.answer.spam
    else LabelledSpam(hasRef, Advance(hasRef, p, run[0]), run[1..])
  }

  lemma StepRegistersIffSpam(i: Item, p: nat, s: Step)
    requires InPhase(i, p) && (p == 1 ==> i.hasRef)
    ensures Perform(i, s).registrations == i.registrations
      + if p < 3 && Advance(i.hasRef, p, s) == 3 && s.attempt.answer.spam then 1 else 0
  {
    StepAdvances(i, p, s);
    if s.Poll? && p < 3 && Advance(i.hasRef, p, s) == 3 {
      var a := s.attempt.answer;
      var data := Seen(i, a);
      var j := TranscriptPart(i, data);
      assert j.registrations == i.registrations && SummaryPart(j, data).registrations == i.registrations;
      assert SummaryPart(j, data).extracted && Unresolved(SummaryPart(j, data).labels);
    }
  }

  /** The caller is registered, once, if and only if the pass that makes the artifact ready calls it spam. */
  lemma {:induction false} RegisteredIffSpam(i: Item, p: nat, run: seq<Step>)
    requires InPhase(i, p) && (p == 1 ==> i.hasRef)
    ensures After(i, run).registrations == i.registrations + if LabelledSpam(i.hasRef, p, run) then 1 else 0
    decreases |run|
  {
    if run != [] {
      var i', q := Perform(i, run[0]), Advance(i.hasRef, p, run[0]);
      StepRegistersIffSpam(i, p, run[0]);
      StepAdvances(i, p, run[0]);
      RegisteredIffSpam(i', q, run[1..]);
    }
  }

  predicate NothingPending(i: Item) {
    i.transcript != Pending && i.summary != Pending && i.labels != Pending
  }

  /** Once processing was triggered no part is pending again, and the parts that were pending are being processed. */
  lemma {:induction false} TriggeredStaysStarted(i: Item, run: seq<Step>)
    ensures NothingPending(After(Trigger(i), run))
    ensures i.transcript == Pending ==> Trigger(i).transcript == Processing
    ensures i.summary == Pending ==> Trigger(i).summary == Processing
    ensures i.labels == Pending ==> Trigger(i).labels == Processing
  {
    NothingPendingStays(Trigger(i), run);
  }

  lemma AttemptStaysStarted(i: Item, t: Attempt)
    requires NothingPending(i)
    ensures NothingPending(Attempted(i, t))
  {
    var data := Seen(i, t.answer);
    TranscriptStaysStarted(i, data);
    SummaryStaysStarted(i, data);
    SummaryStaysStarted(TranscriptPart(i, data), data);
  }

  lemma TranscriptStaysStarted(i: Item, data: Fetched)
    requires NothingPending(i)
    ensures NothingPending(TranscriptPart(i, data))
  {
  }

  lemma SummaryStaysStarted(i: Item, data: Fetched)
    requires NothingPending(i)
    ensures NothingPending(SummaryPart(i, data))
  {
  }

  lemma {:induction false} NothingPendingStays(i: Item, run: seq<Step>)
    requires NothingPending(i)
    ensures NothingPending(After(i, run))
    decreases |run|
  {
    if run != [] {
      if run[0].Poll? {
        AttemptStaysStarted(i, run[0].attempt);
      }
      NothingPendingStays(Perform(i, run[0]), run[1..]);
    }
  }

  /** A linked conversation without data yet is being processed after the first pass that asked for it. */
  lemma AskedIsProcessing(i: Item, t: Attempt)
    requires Unresolved(i.transcript) && i.hasRef && t.answer.fetched == NoData && 1 <= Stages(t.ending)
    ensures Attempted(i, t).transcript == Processing
  {
  }

  /** A failed transcript fails what is still open, except labels that can be taken from an earlier summary: after one
      completed pass everything is done. */
  lemma FailedTranscriptResolvesRest(i: Item, a: Answer)
    requires i.transcript == Failed && Unresolved(i.summary) && Unresolved(i.labels)
    ensures
      var j := Attempted(i, Attempt(a, Completed));
      && AllDone(j) && j.transcript == Failed && j.summary == Failed
      && j.labels == if i.extracted then Ready else Failed
  {
  }

  // ---------------------------------------------------------------------------------------------
  // The polling loop
  // ---------------------------------------------------------------------------------------------

  function CompletedIn(attempts: seq<Attempt>): nat {
    if attempts == [] then 0
    else CompletedIn(attempts[..|attempts| - 1]) + if attempts[|attempts| - 1].ending == Completed then 1 else 0
  }

  /** One iteration of the worker over the rows its query returned. Every row of the batch gets one pass, the
      others none; a pass that raises is caught and does not stop the loop. Returns the number of passes completed. */
  method ProcessPendingArtifacts(items: seq<Item>, batch: seq<nat>, attempts: seq<Attempt>)
    returns (updated: seq<Item>, processed: nat)
    requires |attempts| == |batch| <= 10
    requires forall k :: 0 <= k < |batch| ==> batch[k] < |items| && Selected(items[batch[k]])
    requires forall k, l :: 0 <= k < l < |batch| ==> batch[k] != batch[l]
    ensures |updated| == |items| && processed == CompletedIn(attempts)
    ensures forall k :: 0 <= k < |batch| ==> updated[batch[k]] == Attempted(items[batch[k]], attempts[k])
    ensures forall i :: 0 <= i < |items| && i !in batch ==> updated[i] == items[i]
  {
    updated, processed := items, 0;
    var n := 0;
    while n < |batch|
      invariant 0 <= n <= |batch| && |updated| == |items| && processed == CompletedIn(attempts[..n])
      invariant forall k :: 0 <= k < n ==> updated[batch[k]] == Attempted(items[batch[k]], attempts[k])
      invariant forall i :: 0 <= i < |items| && i !in batch[..n] ==> updated[i] == items[i]
    {
      var i := batch[n];
      assert i !in batch[..n];
      assert attempts[..n + 1][..n] == attempts[..n];
      updated := updated[i := Attempted(updated[i], attempts[n])];
      if attempts[n].ending == Completed {
        processed := processed + 1;
      }
      assert batch[..n + 1] == batch[..n] + [i];
      n := n + 1;
    }
    assert batch[..n] == batch && attempts[..n] == attempts;
  }

  /** The pipeline on one mutable row, stage by stage. */
  class ArtifactRow {
    var item: Item

    constructor (hasRef: bool)
      ensures item == Fresh(hasRef)
    {
      item := Fresh(hasRef);
    }

    method FetchTranscript(fetched: Fetched) returns (data: Fetched)
      modifies this
      ensures data == Seen(old(item), Answer(fetched, false)) && item == TranscriptPart(old(item), data)
    {
      data := NoData;
      if Unresolved(item.transcript) && item.hasRef {
        data := fetched;
        if data.Data? {
          item := item.(transcript := Ready, missingTranscript := false);
        } else {
          item := item.(transcript := Processing);
        }
      } else if item.transcript == Ready && item.hasRef {
        data := fetched;
      }
    }

    /** `faulty`: the summary generator raises on this data, as it does when its analysis is null. */
    method Summarize(data: Fetched, faulty: bool) returns (raised: bool)
      modifies this
      ensures raised <==> faulty && data.Data? && Unresolved(old(item).summary)
      ensures item == if raised then old(item) else SummaryPart(old(item), data)
    {
      raised := false;
      if Unresolved(item.summary) {
        if data.Data? {
          if faulty {
            return true;
          }
          item := item.(summary := Ready, extracted := true, missingSummary := false);
        } else if item.transcript == Failed {
          item := item.(summary := Failed);
        }
      }
    }

    method Label(data: Fetched, spam: bool)
      modifies this
      ensures item == LabelsPart(old(item), data, spam)
    {
      if Unresolved(item.labels) {
        if (data.Data? && data.hasTurns) || item.extracted {
          item := item.(labels := Ready, missingLabels := false);
          if spam {
            item := item.(registrations := item.registrations + 1);
          }
        } else if item.transcript == Failed {
          item := item.(labels := Failed);
        }
      }
    }

    /** One pass: none if it raised, else whether every part is done. */
    method Process(t: Attempt) returns (allDone: Option<bool>)
      modifies this
      ensures item == Attempted(old(item), t)
      ensures allDone == if t.ending == Completed then Some(AllDone(item)) else None
    {
      allDone := None;
      var n := Stages(t.ending);
      if n == 0 {
        return;
      }
      var data := FetchTranscript(t.answer.fetched);
      if n == 1 {
        return;
      }
      var _ := Summarize(data, false);
      if n == 2 {
        return;
      }
      Label(data, t.answer.spam);
      if t.ending == Completed {
        allDone := Some(AllDone(item));
      }
    }
  }

  // ---------------------------------------------------------------------------------------------
  // Running spam mean, in thousandths
  // ---------------------------------------------------------------------------------------------

  /** r is a nearest integer to num / n. */
  predicate IsNearest(r: int, num: int, n: nat) {
    -(n as int) <= 2 * (n * r - num) <= n
  }

  /** round(): to nearest, ties to even. */
  function RoundHalfEven(num: int, n: nat): (r: int)
    requires 0 < n
    ensures IsNearest(r, num, n)
    ensures 2 * (n * r - num) == n || 2 * (num - n * r) == n ==> r % 2 == 0
  {
    var q, m := num / n, num % n;
    assert num == n * q + m;
    assert n * (q + 1) == n * q + n;
    if 2 * m < n || (2 * m == n && q % 2 == 0) then q else q + 1
  }

  datatype SpamEntry = SpamEntry(count: nat, score: int)

  function Register(e: Option<SpamEntry>, score: int): SpamEntry {
    match e
    case None => SpamEntry(1, score)
    case Some(old_) =>
      var count := old_.count + 1;
      SpamEntry(count, RoundHalfEven(old_.score * (count - 1) + score, count))
  }

  function Registered(e: Option<SpamEntry>, scores: seq<int>): Option<SpamEntry>
    decreases |scores|
  {
    if scores == [] then e else Registered(Some(Register(e, scores[0])), scores[1..])
  }

  function Sum(xs: seq<int>): int {
    if xs == [] then 0 else xs[0] + Sum(xs[1..])
  }

  /** The stored mean after `count` flags whose scores sum to `sum` and lie in [lo, hi]. */
  ghost predicate MeanWithin(e: SpamEntry, sum: int, lo: int, hi: int) {
    && 0 < e.count
    && lo <= e.score <= hi
    && -((e.count - 1) * (e.count + 2)) <= 4 * (e.count * e.score - sum) <= (e.count - 1) * (e.count + 2)
  }

  lemma NearestStaysInside(r: int, num: int, n: nat, lo: int, hi: int)
    requires 0 < n && IsNearest(r, num, n) && n * lo <= num <= n * hi
    ensures lo <= r <= hi
  {
    assert n * (r - hi) == n * r - n * hi;
    HalfIsLessThanOne(n, r - hi);
    assert n * (lo - r) == n * lo - n * r;
    HalfIsLessThanOne(n, lo - r);
  }

  lemma MeanStaysInside(e: SpamEntry, score: int, lo: int, hi: int)
    requires 0 < e.count && lo <= e.score <= hi && lo <= score <= hi
    ensures lo <= Register(Some(e), score).score <= hi
  {
    var n := e.count + 1;
    var num := e.score * (n - 1) + score;
    assert n * lo <= num <= n * hi by {
      Scale(e.count, lo, e.score);
      Scale(e.count, e.score, hi);
      OneMore(e.count, lo);
      OneMore(e.count, hi);
      assert e.score * (n - 1) == e.count * e.score;
    }
    NearestStaysInside(RoundHalfEven(num, n), num, n, lo, hi);
  }

  /** One more rounding adds at most n / 2 to the error of the sum. */
  lemma ErrorGrows(e: SpamEntry, score: int, sum: int)
    requires 0 < e.count
    requires -((e.count - 1) * (e.count + 2)) <= 4 * (e.count * e.score - sum) <= (e.count - 1) * (e.count + 2)
    ensures
      var f := Register(Some(e), score);
      -((f.count - 1) * (f.count + 2)) <= 4 * (f.count * f.score - (sum + score)) <= (f.count - 1) * (f.count + 2)
  {
    var n := e.count + 1;
    var r := RoundHalfEven(e.score * (n - 1) + score, n);
    var rounding, before := 2 * (n * r - (e.score * (n - 1) + score)), e.count * e.score - sum;
    assert e.score * (n - 1) == e.count * e.score;
    assert 4 * (n * r - (sum + score)) == 2 * rounding + 4 * before;
    assert (n - 1) * (n + 2) == (e.count - 1) * (e.count + 2) + 2 * n;
  }

  lemma RegisterKeepsMean(e: SpamEntry, score: int, sum: int, lo: int, hi: int)
    requires MeanWithin(e, sum, lo, hi) && lo <= score <= hi
    ensures MeanWithin(Register(Some(e), score), sum + score, lo, hi)
  {
    MeanStaysInside(e, score, lo, hi);
    ErrorGrows(e, score, sum);
  }

  lemma {:induction false} MeanAlongRun(e: SpamEntry, scores: seq<int>, sum: int, lo: int, hi: int)
    requires MeanWithin(e, sum, lo, hi)
    requires forall i :: 0 <= i < |scores| ==> lo <= scores[i] <= hi
    ensures
      var r := Registered(Some(e), scores);
      r.Some? && r.value.count == e.count + |scores| && MeanWithin(r.value, sum + Sum(scores), lo, hi)
    decreases |scores|
  {
    if scores != [] {
      RegisterKeepsMean(e, scores[0], sum, lo, hi);
      MeanAlongRun(Register(Some(e), scores[0]), scores[1..], sum + scores[0], lo, hi);
    }
  }

  /** After n flags the stored mean, rounded at every step, is off by at most (n-1)(n+2)/4 thousandths in the
      sum, and lies between the least and the greatest score recorded. */
  lemma SpamMeanBound(scores: seq<int>, lo: int, hi: int)
    requires scores != []
    requires forall i :: 0 <= i < |scores| ==> lo <= scores[i] <= hi
    ensures
      var n, r := |scores|, Registered(None, scores);
      && r.Some? && r.value.count == n
      && -((n - 1) * (n + 2)) <= 4 * (n * r.value.score - Sum(scores)) <= (n - 1) * (n + 2)
      && lo <= r.value.score <= hi
  {
    var e := Register(None, scores[0]);
    MeanAlongRun(e, scores[1..], scores[0], lo, hi);
  }

  /** The register itself: one entry per caller, updated in place. */
  class SpamRegister {
    var entries: map<nat, SpamEntry>

    constructor ()
      ensures entries == map[]
    {
      entries := map[];
    }

    method RegisterSpamCaller(caller: nat, score: int)
      requires forall c :: c in entries ==> 0 < entries[c].count
      modifies this
      ensures
        var before := if caller in old(entries) then Some(old(entries)[caller]) else None;
        entries == old(entries)[caller := Register(before, score)]
      ensures forall c :: c in entries ==> 0 < entries[c].count
    {
      if caller in entries {
        var count := entries[caller].count + 1;
        var mean := RoundHalfEven(entries[caller].score * (count - 1) + score, count);
        entries := entries[caller := SpamEntry(count, mean)];
      } else {
        entries := entries[caller := SpamEntry(1, score)];
      }
    }
  }
}
