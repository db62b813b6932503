/** normalizeAntigravityContents (internal/handler/chat_antigravity.go). */
module TurnNormalizer {
  /** A part is opaque but for the key that marks it as a function response. */
  datatype Part = Part(functionResponse: bool, payload: string)

  /** A turn as it arrives; a missing role reads as "", missing parts as none. */
  datatype Turn = Turn(role: string, parts: seq<Part>)

  // ---------------------------------------------------------------- function responses last

  function Plain(parts: seq<Part>): (r: seq<Part>)
    ensures forall p :: p in r ==> !p.functionResponse
  {
    if parts == [] then []
    else
      var rest, last := Plain(parts[..|parts| - 1]), parts[|parts| - 1];
      if last.functionResponse then rest else rest + [last]
  }

  function Responses(parts: seq<Part>): (r: seq<Part>)
    ensures forall p :: p in r ==> p.functionResponse
  {
    if parts == [] then []
    else
      var rest, last := Responses(parts[..|parts| - 1]), parts[|parts| - 1];
      if last.functionResponse then rest + [last] else rest
  }

  /** The stable partition. */
  function Partitioned(parts: seq<Part>): seq<Part> { Plain(parts) + Responses(parts) }

  lemma {:induction false} NoResponses(parts: seq<Part>)
    requires Responses(parts) == []
    ensures Plain(parts) == parts
  {
    if parts != [] { NoResponses(parts[..|parts| - 1]); }
  }

  method MoveFunctionResponsesLast(parts: seq<Part>) returns (r: seq<Part>)
    ensures r == Partitioned(parts)
  {
    var nonFR, fr := [], [];
    assert parts[..0] == [];
    for i := 0 to |parts|
      invariant nonFR == Plain(parts[..i]) && fr == Responses(parts[..i])
    {
      assert parts[..i + 1][..i] == parts[..i];
      if parts[i].functionResponse {
        fr := fr + [parts[i]];
      } else {
        nonFR := nonFR + [parts[i]];
      }
    }
    assert parts[..|parts|] == parts;
    if |fr| == 0 {
      NoResponses(parts);
      return parts;
    }
    r := nonFR + fr;
  }

  lemma {:induction false} PlainConcat(a: seq<Part>, b: seq<Part>)
    ensures Plain(a + b) == Plain(a) + Plain(b)
    ensures Responses(a + b) == Responses(a) + Responses(b)
  {
    if b == [] {
      assert a + b == a;
    } else {
      assert (a + b)[..|a + b| - 1] == a + b[..|b| - 1];
      PlainConcat(a, b[..|b| - 1]);
    }
  }

  lemma {:induction false} AllPlain(parts: seq<Part>)
    requires forall i :: 0 <= i < |parts| ==> !parts[i].functionResponse
    ensures Plain(parts) == parts && Responses(parts) == []
  {
    if parts != [] { AllPlain(parts[..|parts| - 1]); }
  }

  lemma {:induction false} AllResponses(parts: seq<Part>)
    requires forall i :: 0 <= i < |parts| ==> parts[i].functionResponse
    ensures Responses(parts) == parts && Plain(parts) == []
  {
    if parts != [] { AllResponses(parts[..|parts| - 1]); }
  }

  /** Partitioning again after appending equals partitioning once. */
  lemma PartitionIncrementally(a: seq<Part>, b: seq<Part>)
    ensures Partitioned(Partitioned(a) + b) == Partitioned(a + b)
  {
    hide Plain, Responses;
    PlainConcat(a, b);
    PlainConcat(Partitioned(a), b);
    PartitionHalves(a);
    assert Plain(Partitioned(a) + b) == Plain(a) + Plain(b);
    assert Responses(Partitioned(a) + b) == Responses(a) + Responses(b);
  }

  lemma PartitionHalves(a: seq<Part>)
    ensures Plain(Partitioned(a)) == Plain(a) && Responses(Partitioned(a)) == Responses(a)
  {
    hide Plain, Responses;
    PlainConcat(Plain(a), Responses(a));
    AllPlain(Plain(a));
    AllResponses(Responses(a));
    assert Plain(a) + [] == Plain(a) && [] + Responses(a) == Responses(a);
  }

  lemma PartitionIsIdempotent(a: seq<Part>)
    ensures Partitioned(Partitioned(a)) == Partitioned(a)
    ensures |Partitioned(a)| == |a| && multiset(Partitioned(a)) == multiset(a)
  {
    PartitionIncrementally(a, []);
    assert a + [] == a && Partitioned(a) + [] == Partitioned(a);
    PartitionKeepsParts(a);
  }

  lemma {:induction false} PartitionKeepsParts(a: seq<Part>)
    ensures multiset(Partitioned(a)) == multiset(a) && |Partitioned(a)| == |a|
  {
    if a != [] {
      PartitionKeepsParts(a[..|a| - 1]);
      assert a == a[..|a| - 1] + [a[|a| - 1]];
    }
  }

  // ---------------------------------------------------------------- what turns mean

  /** Every part with the role it is spoken in, in order. */
  function Spoken(turns: seq<Turn>): seq<(string, Part)> {
    if turns == [] then []
    else Spoken(turns[..|turns| - 1]) + Tagged(turns[|turns| - 1])
  }

  function Tagged(t: Turn): (r: seq<(string, Part)>)
    ensures |r| == |t.parts| && forall i :: 0 <= i < |r| ==> r[i] == (t.role, t.parts[i])
  {
    seq(|t.parts|, i requires 0 <= i < |t.parts| => (t.role, t.parts[i]))
  }

  function Arranged(role: string, parts: seq<Part>, isGemini4: bool): seq<Part> {
    if isGemini4 && role == "user" then Partitioned(parts) else parts
  }

  /** Adding one part to the end of what was spoken. */
  function Speak(runs: seq<Turn>, role: string, part: Part): seq<Turn> {
    if runs != [] && runs[|runs| - 1].role == role
    then runs[..|runs| - 1] + [Turn(role, runs[|runs| - 1].parts + [part])]
    else runs + [Turn(role, [part])]
  }

  /** The maximal runs of one role, each as a single turn. */
  function Runs(spoken: seq<(string, Part)>): seq<Turn> {
    if spoken == [] then []
    else
      var runs := Runs(spoken[..|spoken| - 1]);
      var (role, part) := spoken[|spoken| - 1];
      Speak(runs, role, part)
  }

  function ArrangedTurns(turns: seq<Turn>, isGemini4: bool): (r: seq<Turn>)
    ensures |r| == |turns|
    ensures forall i :: 0 <= i < |turns| ==>
      r[i] == Turn(turns[i].role, Arranged(turns[i].role, turns[i].parts, isGemini4))
  {
    seq(|turns|, i requires 0 <= i < |turns| =>
      Turn(turns[i].role, Arranged(turns[i].role, turns[i].parts, isGemini4)))
  }

  /** The specification: the normal form depends on nothing but what was spoken. */
  function NormalForm(turns: seq<Turn>, isGemini4: bool): seq<Turn> {
    ArrangedTurns(Runs(Spoken(turns)), isGemini4)
  }

  // ---------------------------------------------------------------- the method

  /** Merging one turn onto the runs so far. */
  function Merge(runs: seq<Turn>, t: Turn): seq<Turn> {
    if t.parts == [] then runs
    else if runs != [] && runs[|runs| - 1].role == t.role
    then runs[..|runs| - 1] + [Turn(t.role, runs[|runs| - 1].parts + t.parts)]
    else runs + [t]
  }

  lemma MergeLonger(runs: seq<Turn>, t: Turn)
    requires t.parts != []
    ensures var n := |t.parts| - 1;
      Merge(runs, t) == Speak(Merge(runs, Turn(t.role, t.parts[..n])), t.role, t.parts[n])
  {
    var n := |t.parts| - 1;
    var front := t.parts[..n];
    assert t.parts == front + [t.parts[n]];
    if runs != [] && runs[|runs| - 1].role == t.role {
      assert runs[|runs| - 1].parts + t.parts == runs[|runs| - 1].parts + front + [t.parts[n]];
    }
  }

  lemma RunsSpeak(spoken: seq<(string, Part)>, role: string, part: Part)
    ensures Runs(spoken + [(role, part)]) == Speak(Runs(spoken), role, part)
  {
    assert (spoken + [(role, part)])[..|spoken + [(role, part)]| - 1] == spoken;
  }

  lemma {:induction false} RunsMerge(spoken: seq<(string, Part)>, t: Turn)
    ensures Runs(spoken + Tagged(t)) == Merge(Runs(spoken), t)
    decreases |t.parts|
  {
    hide Runs, Speak;
    if t.parts == [] {
      assert spoken + Tagged(t) == spoken;
    } else {
      var n := |t.parts| - 1;
      var front := Turn(t.role, t.parts[..n]);
      RunsMerge(spoken, front);
      assert spoken + Tagged(t) == (spoken + Tagged(front)) + [(t.role, t.parts[n])];
      RunsSpeak(spoken + Tagged(front), t.role, t.parts[n]);
      MergeLonger(Runs(spoken), t);
    }
  }

  /** One step of the loop, on the arranged turns themselves. */
  function MergeArranged(merged: seq<Turn>, t: Turn, isGemini4: bool): seq<Turn> {
    if t.parts == [] then merged
    else if merged != [] && merged[|merged| - 1].role == t.role
    then merged[|merged| - 1 := Turn(t.role, Arranged(t.role, merged[|merged| - 1].parts + t.parts, isGemini4))]
    else merged + [Turn(t.role, Arranged(t.role, t.parts, isGemini4))]
  }

  lemma MergeCommutes(runs: seq<Turn>, t: Turn, isGemini4: bool)
    ensures ArrangedTurns(Merge(runs, t), isGemini4) == MergeArranged(ArrangedTurns(runs, isGemini4), t, isGemini4)
  {
    hide Partitioned;
    if t.parts != [] && runs != [] && runs[|runs| - 1].role == t.role {
      PartitionIncrementally(runs[|runs| - 1].parts, t.parts);
    }
  }

  lemma NormalFormPush(contents: seq<Turn>, i: nat, isGemini4: bool)
    requires i < |contents|
    ensures NormalForm(contents[..i + 1], isGemini4)
         == MergeArranged(NormalForm(contents[..i], isGemini4), contents[i], isGemini4)
  {
    hide Merge, ArrangedTurns, Runs, Tagged;
    assert contents[..i + 1][..i] == contents[..i];
    RunsMerge(Spoken(contents[..i]), contents[i]);
    MergeCommutes(Runs(Spoken(contents[..i])), contents[i], isGemini4);
  }

  method NormalizeAntigravityContents(contents: seq<Turn>, isGemini4: bool) returns (merged: seq<Turn>)
    ensures merged == NormalForm(contents, isGemini4)
  {
    hide NormalForm, Partitioned;
    NothingToNormalize(isGemini4);
    if |contents| == 0 {
      return contents;
    }
    merged := [];
    assert contents[..0] == [];
    for i := 0 to |contents|
      invariant merged == NormalForm(contents[..i], isGemini4)
    {
      var role, parts := contents[i].role, contents[i].parts;
      NormalFormPush(contents, i, isGemini4);
      if |parts| == 0 {
        continue;
      }
      if |merged| > 0 && merged[|merged| - 1].role == role {
        var lastParts := merged[|merged| - 1].parts + parts;
        if isGemini4 && role == "user" {
          lastParts := MoveFunctionResponsesLast(lastParts);
        }
        merged := merged[|merged| - 1 := Turn(role, lastParts)];
        continue;
      }
      if isGemini4 && role == "user" {
        parts := MoveFunctionResponsesLast(parts);
      }
      merged := merged + [Turn(role, parts)];
    }
    assert contents[..|contents|] == contents;
  }

  lemma NothingToNormalize(isGemini4: bool)
    ensures NormalForm([], isGemini4) == []
  {
  }

  // ---------------------------------------------------------------- what the normal form keeps

  ghost predicate WellFormed(turns: seq<Turn>) {
    && (forall i :: 0 <= i < |turns| ==> turns[i].parts != [])
    && (forall i :: 0 <= i < |turns| - 1 ==> turns[i].role != turns[i + 1].role)
  }

  lemma {:induction false} RunsAreMaximal(spoken: seq<(string, Part)>)
    ensures WellFormed(Runs(spoken))
  {
    if spoken != [] { RunsAreMaximal(spoken[..|spoken| - 1]); }
  }

  lemma {:induction false} RunsSpeakTheSame(spoken: seq<(string, Part)>)
    ensures Spoken(Runs(spoken)) == spoken
  {
    hide Spoken, Speak;
    if spoken == [] {
      SpokenNothing();
    } else {
      var front := spoken[..|spoken| - 1];
      var (role, part) := spoken[|spoken| - 1];
      assert spoken == front + [(role, part)];
      RunsSpeak(front, role, part);
      RunsSpeakTheSame(front);
      SpokenSpeak(Runs(front), role, part);
    }
  }

  lemma SpokenNothing()
    ensures Spoken([]) == []
  {
  }

  lemma SpokenPush(turns: seq<Turn>, t: Turn)
    ensures Spoken(turns + [t]) == Spoken(turns) + Tagged(t)
  {
    assert (turns + [t])[..|turns + [t]| - 1] == turns;
  }

  lemma TaggedPush(t: Turn, part: Part)
    ensures Tagged(Turn(t.role, t.parts + [part])) == Tagged(t) + [(t.role, part)]
  {
  }

  lemma SpokenSpeak(runs: seq<Turn>, role: string, part: Part)
    ensures Spoken(Speak(runs, role, part)) == Spoken(runs) + [(role, part)]
  {
    hide Spoken, Tagged;
    if runs != [] && runs[|runs| - 1].role == role {
      var front, last := runs[..|runs| - 1], runs[|runs| - 1];
      SpokenPush(front, Turn(role, last.parts + [part]));
      SpokenPush(front, last);
      assert runs == front + [last];
      TaggedPush(last, part);
    } else {
      SpokenPush(runs, Turn(role, [part]));
      TaggedPush(Turn(role, []), part);
      TaggedNothing(role);
      assert [] + [part] == [part];
    }
  }

  lemma TaggedNothing(role: string)
    ensures Tagged(Turn(role, [])) == []
  {
  }

  /** No empty turn and no two adjacent turns of one role. */
  lemma NormalFormIsWellFormed(turns: seq<Turn>, isGemini4: bool)
    ensures WellFormed(NormalForm(turns, isGemini4))
  {
    var runs := Runs(Spoken(turns));
    RunsAreMaximal(Spoken(turns));
    forall i | 0 <= i < |runs| ensures NormalForm(turns, isGemini4)[i].parts != [] {
      PartitionKeepsParts(runs[i].parts);
    }
  }

  /** Outside Gemini 4 the same parts are spoken by the same roles in the same order. */
  lemma NormalFormSpeaksTheSame(turns: seq<Turn>)
    ensures Spoken(NormalForm(turns, false)) == Spoken(turns)
  {
    RunsSpeakTheSame(Spoken(turns));
    assert NormalForm(turns, false) == Runs(Spoken(turns));
  }

  /** For Gemini 4 each user turn is its merged run with the function responses moved last. */
  lemma UserTurnsArePartitionedRuns(turns: seq<Turn>, i: nat)
    requires i < |Runs(Spoken(turns))|
    ensures var run, turn := Runs(Spoken(turns))[i], NormalForm(turns, true)[i];
      && turn.role == run.role
      && (run.role != "user" ==> turn.parts == run.parts)
      && (run.role == "user" ==>
           && turn.parts == Plain(run.parts) + Responses(run.parts)
           && multiset(turn.parts) == multiset(run.parts))
  {
    PartitionKeepsParts(Runs(Spoken(turns))[i].parts);
  }

  lemma {:induction false} RunsOfWellFormed(turns: seq<Turn>)
    requires WellFormed(turns)
    ensures Runs(Spoken(turns)) == turns
  {
    if turns != [] {
      var front, last := turns[..|turns| - 1], turns[|turns| - 1];
      RunsOfWellFormed(front);
      RunsMerge(Spoken(front), last);
      assert turns == front + [last];
      if front != [] { assert turns[|front| - 1].role != turns[|front|].role; }
    }
  }

  lemma NormalFormIsIdempotent(turns: seq<Turn>, isGemini4: bool)
    ensures NormalForm(NormalForm(turns, isGemini4), isGemini4) == NormalForm(turns, isGemini4)
  {
    var once := NormalForm(turns, isGemini4);
    NormalFormIsWellFormed(turns, isGemini4);
    RunsOfWellFormed(once);
    forall i | 0 <= i < |once| ensures Arranged(once[i].role, once[i].parts, isGemini4) == once[i].parts {
      PartitionIsIdempotent(Runs(Spoken(turns))[i].parts);
    }
  }

  /** How the parts were split into turns does not matter. */
  lemma OnlyWhatIsSpokenMatters(a: seq<Turn>, b: seq<Turn>, isGemini4: bool)
    ensures Spoken(a) == Spoken(b) ==> NormalForm(a, isGemini4) == NormalForm(b, isGemini4)
    ensures NormalForm(a, false) == NormalForm(b, false) ==> Spoken(a) == Spoken(b)
  {
    NormalFormSpeaksTheSame(a);
    NormalFormSpeaksTheSame(b);
  }
}
