/** The advice attached to a comparison: an ordered list of feedback notes
    and an ordered list of recommendations, both chosen by fixed thresholds
    on the scores. The messages themselves are shown to the user in Korean;
    here each message is a tag, and a note about a body part carries the
    Korean label of that part. */
module Guidance {
  import opened Basics
  import opened PoseTypes
  import opened OrderedMaps
  import opened DetailMetrics

  // ---------------------------------------------------------------------
  // Body-part labels

  const Translations: map<string, string> := map[
    "left_shoulder" := "왼쪽 어깨",
    "right_shoulder" := "오른쪽 어깨",
    "left_elbow" := "왼쪽 팔꿈치",
    "right_elbow" := "오른쪽 팔꿈치",
    "left_wrist" := "왼쪽 손목",
    "right_wrist" := "오른쪽 손목",
    "left_hip" := "왼쪽 엉덩이",
    "right_hip" := "오른쪽 엉덩이",
    "left_knee" := "왼쪽 무릎",
    "right_knee" := "오른쪽 무릎"
  ]

  /** `translations[keyPoint] || keyPoint`: every label in the table is a
      non-empty string, so a name in the table reads its label and any other
      name reads as itself. */
  function GetBodyPartKorean(keyPoint: string): (translated: string)
  {
    if keyPoint in Translations && Translations[keyPoint] != "" then Translations[keyPoint] else keyPoint
  }

  /** A name is translated exactly when it is in the table, and then to the
      label the table gives it. */
  lemma BodyPartLabel(keyPoint: string)
    ensures keyPoint in Translations ==> GetBodyPartKorean(keyPoint) == Translations[keyPoint]
    ensures GetBodyPartKorean(keyPoint) == keyPoint <==> keyPoint !in Translations
  {
    if keyPoint in Translations {
      assert Translations[keyPoint][0] != keyPoint[0];
    }
  }

  /** Two examples of the table at work. */
  lemma BodyPartLabelExamples()
    ensures GetBodyPartKorean("right_elbow") == "오른쪽 팔꿈치"
    ensures GetBodyPartKorean("nose") == "nose"
  {
    BodyPartLabel("nose");
  }

  // ---------------------------------------------------------------------
  // Feedback

  datatype FeedbackNote =
    | Excellent          // position accuracy at least 80
    | Good               // position accuracy at least 60
    | NeedsPractice      // position accuracy below 60
    | ImproveTiming      // timing below 70
    | ImproveStability   // stability below 70
    | CheckPosition(bodyPart: string)  // a keypoint scoring below 60

  /** The overall note, chosen by position accuracy. */
  function Tier(positionAccuracy: real): FeedbackNote
  {
    if positionAccuracy >= 80.0 then Excellent
    else if positionAccuracy >= 60.0 then Good
    else NeedsPractice
  }

  /** One note per entry scoring below 60, in entry order. */
  function PositionNotes(keyPointScores: OrderedMap<real>): seq<FeedbackNote>
  {
    if |keyPointScores| == 0 then []
    else
      var last := keyPointScores[|keyPointScores| - 1];
      PositionNotes(keyPointScores[..|keyPointScores| - 1]) +
      (if last.1 < 60.0 then [CheckPosition(GetBodyPartKorean(last.0))] else [])
  }

  /** What `generateFeedback` returns. */
  function Feedback(keyPointScores: OrderedMap<real>, details: Details): seq<FeedbackNote>
  {
    [Tier(details.positionAccuracy)]
    + (if details.timing < 70.0 then [ImproveTiming] else [])
    + (if details.stability < 70.0 then [ImproveStability] else [])
    + PositionNotes(keyPointScores)
  }

  method GenerateFeedback(keyPointScores: OrderedMap<real>, details: Details, shotType: ShotType)
    returns (feedback: seq<FeedbackNote>)
    ensures feedback == Feedback(keyPointScores, details)
  {
    feedback := [];
    if details.positionAccuracy >= 80.0 {
      feedback := feedback + [Excellent];
    } else if details.positionAccuracy >= 60.0 {
      feedback := feedback + [Good];
    } else {
      feedback := feedback + [NeedsPractice];
    }
    if details.timing < 70.0 {
      feedback := feedback + [ImproveTiming];
    }
    if details.stability < 70.0 {
      feedback := feedback + [ImproveStability];
    }
    ghost var head := feedback;
    assert head == [Tier(details.positionAccuracy)]
      + (if details.timing < 70.0 then [ImproveTiming] else [])
      + (if details.stability < 70.0 then [ImproveStability] else []);
    var i := 0;
    while i < |keyPointScores|
      invariant 0 <= i <= |keyPointScores|
      invariant feedback == head + PositionNotes(keyPointScores[..i])
    {
      var (keyPoint, score) := keyPointScores[i];
      if score < 60.0 {
        var bodyPart := GetBodyPartKorean(keyPoint);
        NoteAppended(head, keyPointScores, i, feedback);
        feedback := feedback + [CheckPosition(bodyPart)];
      } else {
        NoteSkipped(head, keyPointScores, i, feedback);
      }
      i := i + 1;
    }
    assert keyPointScores[..i] == keyPointScores;
  }

  lemma PositionNotesStep(keyPointScores: OrderedMap<real>, i: nat)
    requires i < |keyPointScores|
    ensures PositionNotes(keyPointScores[..i + 1]) == PositionNotes(keyPointScores[..i]) +
      (if keyPointScores[i].1 < 60.0 then [CheckPosition(GetBodyPartKorean(keyPointScores[i].0))] else [])
  {
    assert keyPointScores[..i + 1][..i] == keyPointScores[..i];
  }

  /** An entry scoring below 60 appends its note to the feedback built so far. */
  lemma NoteAppended(head: seq<FeedbackNote>, keyPointScores: OrderedMap<real>, i: nat, feedback: seq<FeedbackNote>)
    requires i < |keyPointScores| && keyPointScores[i].1 < 60.0
    requires feedback == head + PositionNotes(keyPointScores[..i])
    ensures feedback + [CheckPosition(GetBodyPartKorean(keyPointScores[i].0))] ==
      head + PositionNotes(keyPointScores[..i + 1])
  {
    PositionNotesStep(keyPointScores, i);
  }

  /** Any other entry leaves the feedback as it is. */
  lemma NoteSkipped(head: seq<FeedbackNote>, keyPointScores: OrderedMap<real>, i: nat, feedback: seq<FeedbackNote>)
    requires i < |keyPointScores| && !(keyPointScores[i].1 < 60.0)
    requires feedback == head + PositionNotes(keyPointScores[..i])
    ensures feedback == head + PositionNotes(keyPointScores[..i + 1])
  {
    PositionNotesStep(keyPointScores, i);
  }

  /** Every position note names the label of an entry scoring below 60, and
      every such entry gets its note. */
  lemma {:induction false} PositionNotesExactly(keyPointScores: OrderedMap<real>, bodyPart: string)
    ensures CheckPosition(bodyPart) in PositionNotes(keyPointScores) <==>
      exists i :: 0 <= i < |keyPointScores| && keyPointScores[i].1 < 60.0 &&
        bodyPart == GetBodyPartKorean(keyPointScores[i].0)
    ensures forall note :: note in PositionNotes(keyPointScores) ==> note.CheckPosition?
  {
    if |keyPointScores| > 0 {
      var k := |keyPointScores| - 1;
      var prefix := keyPointScores[..k];
      PositionNotesExactly(prefix, bodyPart);
      assert forall i :: 0 <= i < k ==> prefix[i] == keyPointScores[i];
    }
  }

  /** The feedback opens with exactly one tier note, chosen by position
      accuracy; then the timing note, present exactly when timing is below
      70; then the stability note, present exactly when stability is below
      70; every later entry is a note about a body part. */
  lemma FeedbackShape(keyPointScores: OrderedMap<real>, details: Details)
    ensures var f := Feedback(keyPointScores, details);
      var t := if details.timing < 70.0 then 1 else 0;
      var s := if details.stability < 70.0 then 1 else 0;
      && |f| == 1 + t + s + |PositionNotes(keyPointScores)|
      && (f[0] == Excellent <==> details.positionAccuracy >= 80.0)
      && (f[0] == Good <==> 60.0 <= details.positionAccuracy < 80.0)
      && (f[0] == NeedsPractice <==> details.positionAccuracy < 60.0)
      && (ImproveTiming in f <==> details.timing < 70.0)
      && (ImproveStability in f <==> details.stability < 70.0)
      && (details.timing < 70.0 ==> f[1] == ImproveTiming)
      && (details.stability < 70.0 ==> f[1 + t] == ImproveStability)
      && (forall i :: 1 + t + s <= i < |f| ==> f[i].CheckPosition?)
  {
    var notes := PositionNotes(keyPointScores);
    PositionNotesExactly(keyPointScores, "");
    var f := Feedback(keyPointScores, details);
    var t := if details.timing < 70.0 then 1 else 0;
    var s := if details.stability < 70.0 then 1 else 0;
    assert f[1 + t + s..] == notes;
    forall i | 1 + t + s <= i < |f|
      ensures f[i].CheckPosition?
    {
      assert f[i] == notes[i - (1 + t + s)];
    }
  }

  /** A note names a body part exactly when an entry scoring below 60 has
      that label. */
  lemma FeedbackPositionNotes(keyPointScores: OrderedMap<real>, details: Details, bodyPart: string)
    ensures CheckPosition(bodyPart) in Feedback(keyPointScores, details) <==>
      exists i :: 0 <= i < |keyPointScores| && keyPointScores[i].1 < 60.0 &&
        bodyPart == GetBodyPartKorean(keyPointScores[i].0)
  {
    PositionNotesExactly(keyPointScores, bodyPart);
  }

  // ---------------------------------------------------------------------
  // Recommendations

  datatype Recommendation =
    | RaiseShoulder        // smash, right shoulder below 70
    | AdjustElbowAngle     // smash, right elbow below 70
    | ShiftWeightForward   // serve
    | PullRacketBack       // clear
    | PracticeSlowly       // stability below 70
    | RewatchReference     // timing below 70

  /** JavaScript truthiness of a possibly missing score: missing and 0 are
      both false. */
  predicate Truthy(score: Option<real>)
  {
    score.Some? && score.value != 0.0
  }

  /** `scores.k && scores.k < 70`. */
  predicate Weak(keyPointScores: OrderedMap<real>, keyPoint: string)
  {
    Truthy(Get(keyPointScores, keyPoint)) && Get(keyPointScores, keyPoint).value < 70.0
  }

  /** The recommendations chosen by the shot type. */
  function ShotRecommendations(keyPointScores: OrderedMap<real>, shotType: ShotType): seq<Recommendation>
  {
    match shotType
    case Smash =>
      (if Weak(keyPointScores, "right_shoulder") then [RaiseShoulder] else [])
      + (if Weak(keyPointScores, "right_elbow") then [AdjustElbowAngle] else [])
    case Serve => [ShiftWeightForward]
    case Clear => [PullRacketBack]
    case Drop => []
    case Net => []
  }

  /** What `generateRecommendations` returns. */
  function Recommendations(keyPointScores: OrderedMap<real>, details: Details, shotType: ShotType)
    : seq<Recommendation>
  {
    ShotRecommendations(keyPointScores, shotType)
    + (if details.stability < 70.0 then [PracticeSlowly] else [])
    + (if details.timing < 70.0 then [RewatchReference] else [])
  }

  method GenerateRecommendations(keyPointScores: OrderedMap<real>, details: Details, shotType: ShotType)
    returns (recommendations: seq<Recommendation>)
    ensures recommendations == Recommendations(keyPointScores, details, shotType)
  {
    recommendations := [];
    match shotType {
      case Smash =>
        var rightShoulder := Get(keyPointScores, "right_shoulder");
        if rightShoulder.Some? && rightShoulder.value != 0.0 && rightShoulder.value < 70.0 {
          recommendations := recommendations + [RaiseShoulder];
        }
        var rightElbow := Get(keyPointScores, "right_elbow");
        if rightElbow.Some? && rightElbow.value != 0.0 && rightElbow.value < 70.0 {
          recommendations := recommendations + [AdjustElbowAngle];
        }
      case Serve =>
        recommendations := recommendations + [ShiftWeightForward];
      case Clear =>
        recommendations := recommendations + [PullRacketBack];
      case Drop =>
      case Net =>
    }
    assert recommendations == ShotRecommendations(keyPointScores, shotType);
    if details.stability < 70.0 {
      recommendations := recommendations + [PracticeSlowly];
    }
    if details.timing < 70.0 {
      recommendations := recommendations + [RewatchReference];
    }
  }

  /** Each recommendation appears exactly under its condition; a score of
      exactly 0 counts as missing. */
  lemma RecommendationsExactly(keyPointScores: OrderedMap<real>, details: Details, shotType: ShotType)
    ensures var r := Recommendations(keyPointScores, details, shotType);
      && (RaiseShoulder in r <==> shotType == Smash && Weak(keyPointScores, "right_shoulder"))
      && (AdjustElbowAngle in r <==> shotType == Smash && Weak(keyPointScores, "right_elbow"))
      && (ShiftWeightForward in r <==> shotType == Serve)
      && (PullRacketBack in r <==> shotType == Clear)
      && (PracticeSlowly in r <==> details.stability < 70.0)
      && (RewatchReference in r <==> details.timing < 70.0)
  {
    var shot := ShotRecommendations(keyPointScores, shotType);
    ShotRecommendationsExactly(keyPointScores, shotType);
    assert PracticeSlowly !in shot && RewatchReference !in shot;
  }

  /** The shot-specific lines: each appears exactly under its condition, and
      no general line is among them. */
  lemma ShotRecommendationsExactly(keyPointScores: OrderedMap<real>, shotType: ShotType)
    ensures var r := ShotRecommendations(keyPointScores, shotType);
      && (RaiseShoulder in r <==> shotType == Smash && Weak(keyPointScores, "right_shoulder"))
      && (AdjustElbowAngle in r <==> shotType == Smash && Weak(keyPointScores, "right_elbow"))
      && (ShiftWeightForward in r <==> shotType == Serve)
      && (PullRacketBack in r <==> shotType == Clear)
      && PracticeSlowly !in r && RewatchReference !in r
  {
  }

  /** The shot-specific lines come first, then the stability line, then the
      timing line; drop and net get only the general lines; no line repeats. */
  lemma RecommendationsOrder(keyPointScores: OrderedMap<real>, details: Details, shotType: ShotType)
    ensures var r := Recommendations(keyPointScores, details, shotType);
      && |r| <= 4
      && (forall i, j :: 0 <= i < j < |r| ==> r[i] != r[j])
      && (details.timing < 70.0 ==> r[|r| - 1] == RewatchReference)
      && (shotType == Drop || shotType == Net ==>
            r == (if details.stability < 70.0 then [PracticeSlowly] else [])
               + (if details.timing < 70.0 then [RewatchReference] else []))
  {
  }

  /** A right-shoulder score of exactly 0 suppresses the shoulder line. */
  lemma ZeroScoreSuppressesRecommendation(keyPointScores: OrderedMap<real>, details: Details)
    requires Get(keyPointScores, "right_shoulder") == Some(0.0)
    ensures RaiseShoulder !in Recommendations(keyPointScores, details, Smash)
  {
  }
}
