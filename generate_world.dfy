/** `generateWorldData`: one structured generation of a world from a seed
    prompt, with throttled progress reports about which fields of the
    world are already filled in.

    The model runtime and the clock are inputs: whether the model is
    available, whether creating a session fails, the moment tracking
    starts, each partial object with the moment it arrives, and how the
    final object settles. */
module GenerateWorld {
  import opened Common
  import opened JsText
  import opened Worlds

  // ---------------------------------------------------------------------
  // Fields

  /** The top-level properties of the world schema: `title`,
      `description`, `setting`, `startingLocation`, `initialSituation`,
      `tone`, `genre` (required strings) and `characters`, `items`, `goals`
      (optional arrays). */
  datatype Field =
    | Title | Description | Setting | StartingLocation | InitialSituation | Tone | Genre
    | Characters | Items | Goals

  /** A (partial) world object, by the schema properties it holds; no
      other property is ever read. */
  type WorldObject = map<Field, JsValue>

  /** A field counts as filled in when it is a non-empty array, a string
      with a non-whitespace character, or an object with at least one key;
      `undefined`, `null`, numbers and booleans never count. */
  predicate IsFieldComplete(v: JsValue)
    ensures IsFieldComplete(v) ==> v.Arr? || v.Str? || v.Obj?
  {
    match v
    case Arr(items) => |items| > 0
    case Str(s) => |Trim(s)| > 0
    case Obj(props) => |props| > 0
    case _ => false
  }

  /** A string field is filled in exactly when some character of it is not
      whitespace. */
  lemma StringFieldCompleteIffNotBlank(s: string)
    ensures IsFieldComplete(Str(s)) <==> exists i :: 0 <= i < |s| && !IsTrimmable(s[i])
  {
    TrimEmptyIffBlank(s);
  }

  const RequiredFields: seq<Field> := [Title, Description, Setting, StartingLocation, InitialSituation, Tone, Genre]

  const OptionalFields: seq<Field> := [Characters, Items, Goals]

  /** Every field the schema declares, in the order they are checked. */
  const AllFields: seq<Field> := RequiredFields + OptionalFields

  /** The lists name every field of the schema exactly once, and a field is
      optional exactly when it is one of the three lists. */
  lemma FieldListsCoverSchema(f: Field)
    ensures f in AllFields
    ensures f in OptionalFields <==> f !in RequiredFields
    ensures f in OptionalFields <==> f.Characters? || f.Items? || f.Goals?
    ensures |AllFields| == 10 && forall i, j :: 0 <= i < j < |AllFields| ==> AllFields[i] != AllFields[j]
  {
  }

  /** The fields among `fields` that are filled in in `obj`. */
  function CompleteIn(obj: WorldObject, fields: seq<Field>): set<Field> {
    set f | f in fields && IsFieldComplete(Get(obj, f))
  }

  /** `updateCompletedFields`: add to `completed` every field of `fields`
      that is filled in in `obj`. */
  method UpdateCompletedFields(completed: set<Field>, obj: WorldObject, fields: seq<Field>)
    returns (updated: set<Field>)
    ensures updated == completed + CompleteIn(obj, fields)
  {
    updated := completed;
    for i := 0 to |fields|
      invariant updated == completed + CompleteIn(obj, fields[..i])
    {
      var field := fields[i];
      assert fields[..i + 1] == fields[..i] + [field];
      if IsFieldComplete(Get(obj, field)) && field !in updated {
        updated := updated + {field};
      }
    }
    assert fields[..|fields|] == fields;
  }

  /** Only listed fields, and only filled-in ones, are ever recorded. */
  lemma CompleteInBounds(obj: WorldObject, fields: seq<Field>, f: Field)
    ensures f in CompleteIn(obj, fields) <==> f in fields && f in obj && IsFieldComplete(obj[f])
  {
  }

  /** `fields.find(field => !completed.has(field))`: the first field not yet
      completed. */
  function FirstMissing(fields: seq<Field>, completed: set<Field>): (r: Option<Field>)
    ensures r.None? <==> forall f :: f in fields ==> f in completed
    ensures r.Some? ==> exists i :: 0 <= i < |fields| && fields[i] == r.value && r.value !in completed &&
                          forall j :: 0 <= j < i ==> fields[j] in completed
    decreases |fields|
  {
    if fields == [] then None
    else if fields[0] !in completed then Some(fields[0])
    else
      var r := FirstMissing(fields[1..], completed);
      if r.Some? then
        var i :| 0 <= i < |fields[1..]| && fields[1..][i] == r.value && r.value !in completed &&
                 forall j :: 0 <= j < i ==> fields[1..][j] in completed;
        assert fields[i + 1] == r.value;
        r
      else
        assert forall f :: f in fields ==> f == fields[0] || f in fields[1..];
        r
  }

  /** The first field of `first` not yet completed, else the first of
      `second`, else none. */
  function FirstMissingOf(first: seq<Field>, second: seq<Field>, completed: set<Field>): (r: Option<Field>)
    ensures r.None? <==> forall f :: f in first + second ==> f in completed
    ensures r.Some? ==> r.value in first + second && r.value !in completed
    ensures r.Some? && r.value !in first ==> forall f :: f in first ==> f in completed
    ensures r.Some? ==> exists i :: 0 <= i < |first + second| && (first + second)[i] == r.value &&
                          forall j :: 0 <= j < i ==> (first + second)[j] in completed
  {
    var r1 := FirstMissing(first, completed);
    if r1.Some? then
      var i :| 0 <= i < |first| && first[i] == r1.value && r1.value !in completed &&
               forall j :: 0 <= j < i ==> first[j] in completed;
      assert (first + second)[i] == first[i];
      assert forall j :: 0 <= j < i ==> (first + second)[j] == first[j];
      r1
    else
      var r2 := FirstMissing(second, completed);
      if r2.Some? then
        var i :| 0 <= i < |second| && second[i] == r2.value && r2.value !in completed &&
                 forall j :: 0 <= j < i ==> second[j] in completed;
        assert (first + second)[|first| + i] == second[i];
        assert forall j :: 0 <= j < |first| ==> (first + second)[j] == first[j];
        assert forall j :: |first| <= j < |first| + i ==> (first + second)[j] == second[j - |first|];
        r2
      else r2
  }

  /** The field reported as being worked on: the first required field not
      yet completed, else the first optional one, else none. */
  function CurrentField(completed: set<Field>): (r: Option<Field>)
    ensures r.None? <==> forall f :: f in AllFields ==> f in completed
    ensures r.Some? ==> r.value in AllFields && r.value !in completed
    ensures r.Some? && r.value !in RequiredFields ==> forall f :: f in RequiredFields ==> f in completed
    ensures r.Some? ==> exists i :: 0 <= i < |AllFields| && AllFields[i] == r.value &&
                          forall j :: 0 <= j < i ==> AllFields[j] in completed
  {
    FirstMissingOf(RequiredFields, OptionalFields, completed)
  }

  // ---------------------------------------------------------------------
  // The final object as a record

  function CharacterRecord(c: Character): JsValue {
    Obj(map["name" := Str(c.name), "description" := Str(c.description), "role" := Str(c.role)])
  }

  function ItemRecord(it: Item): JsValue {
    Obj(map["name" := Str(it.name), "description" := Str(it.description)])
  }

  function CharactersValue(cs: seq<Character>): JsValue {
    Arr(seq(|cs|, i requires 0 <= i < |cs| => CharacterRecord(cs[i])))
  }

  function ItemsValue(its: seq<Item>): JsValue {
    Arr(seq(|its|, i requires 0 <= i < |its| => ItemRecord(its[i])))
  }

  function GoalsValue(gs: seq<string>): JsValue {
    Arr(seq(|gs|, i requires 0 <= i < |gs| => Str(gs[i])))
  }

  /** The text of a required field in the final world. */
  function RequiredText(w: WorldData, f: Field): string {
    match f
    case Title => w.title
    case Description => w.description
    case Setting => w.setting
    case StartingLocation => w.startingLocation
    case InitialSituation => w.initialSituation
    case Tone => w.tone
    case Genre => w.genre
    case _ => ""
  }

  /** The world as the record `updateCompletedFields` inspects: an optional
      list that is absent is a missing property. */
  function WorldRecord(w: WorldData): (m: WorldObject)
    ensures forall f :: f in RequiredFields ==> f in m && m[f].Str?
    ensures m[Title] == Str(w.title) && m[Genre] == Str(w.genre)
    ensures Characters in m <==> w.characters.Some?
    ensures Items in m <==> w.items.Some?
    ensures Goals in m <==> w.goals.Some?
  {
    var base := map f | f in RequiredFields :: Str(RequiredText(w, f));
    var withCharacters := if w.characters.Some? then base[Characters := CharactersValue(w.characters.value)] else base;
    var withItems := if w.items.Some? then withCharacters[Items := ItemsValue(w.items.value)] else withCharacters;
    if w.goals.Some? then withItems[Goals := GoalsValue(w.goals.value)] else withItems
  }

  /** In the final object, a required field counts as completed exactly
      when its text is not blank. */
  lemma FinalRequiredFieldsComplete(w: WorldData)
    ensures forall f :: f in RequiredFields ==>
      (f in CompleteIn(WorldRecord(w), AllFields) <==> Trim(WorldRecord(w)[f].s) != "")
    ensures Title in CompleteIn(WorldRecord(w), AllFields) <==> Trim(w.title) != ""
    ensures Genre in CompleteIn(WorldRecord(w), AllFields) <==> Trim(w.genre) != ""
  {
    var m := WorldRecord(w);
    forall f | f in RequiredFields
      ensures f in CompleteIn(m, AllFields) <==> Trim(m[f].s) != ""
    {
      FieldListsCoverSchema(f);
      CompleteInBounds(m, AllFields, f);
    }
  }

  /** In the final object, an optional list counts as completed exactly
      when it is present and non-empty. */
  lemma FinalOptionalFieldsComplete(w: WorldData)
    ensures Goals in CompleteIn(WorldRecord(w), AllFields) <==> w.goals.Some? && |w.goals.value| > 0
    ensures Items in CompleteIn(WorldRecord(w), AllFields) <==> w.items.Some? && |w.items.value| > 0
    ensures Characters in CompleteIn(WorldRecord(w), AllFields) <==>
              w.characters.Some? && |w.characters.value| > 0
  {
    var m := WorldRecord(w);
    CompleteInBounds(m, AllFields, Goals);
    CompleteInBounds(m, AllFields, Items);
    CompleteInBounds(m, AllFields, Characters);
    assert w.goals.Some? ==> m[Goals] == GoalsValue(w.goals.value);
    assert w.items.Some? ==> m[Items] == ItemsValue(w.items.value);
    assert w.characters.Some? ==> m[Characters] == CharactersValue(w.characters.value);
  }

  // ---------------------------------------------------------------------
  // The progress loop, as a function of the run

  datatype ProgressState = ProgressState(completedFields: set<Field>, currentField: Option<Field>)

  /** A partial object and the moment (`Date.now()`) the loop receives it. */
  datatype TimedPartial = TimedPartial(at: int, obj: WorldObject)

  /** Everything the runtime and the clock contribute to one call. A stream
      that throws is a shorter list of partials: the error is logged and
      swallowed. */
  datatype WorldRun = WorldRun(
    availability: Availability,
    sessionFailure: Option<Thrown>,
    start: int,
    partials: seq<TimedPartial>,
    final: Settled<WorldData>)

  /** The loop's state: completed fields, the moment of the last report,
      the reports made and the moments they were made at. */
  datatype Tracking = Tracking(completed: set<Field>, last: int, reports: seq<ProgressState>, times: seq<int>)

  /** One pass of the loop: report only if a callback was given and more
      than 200 ms passed since the last report (or since the start). */
  function TrackStep(t: Tracking, p: TimedPartial, hasCallback: bool): Tracking {
    if p.at - t.last > 200 && hasCallback then
      var c := t.completed + CompleteIn(p.obj, AllFields);
      Tracking(c, p.at, t.reports + [ProgressState(c, CurrentField(c))], t.times + [p.at])
    else t
  }

  function Track(start: int, ps: seq<TimedPartial>, hasCallback: bool): Tracking
    decreases |ps|
  {
    if ps == [] then Tracking({}, start, [], [])
    else TrackStep(Track(start, ps[..|ps| - 1], hasCallback), ps[|ps| - 1], hasCallback)
  }

  /** What one call produces: whether it asks for a session (downloading
      the model), the progress reports, and how it settles. */
  datatype WorldOutcome = WorldOutcome(createsSession: bool, reports: seq<ProgressState>, result: Settled<WorldData>)

  function WorldSpec(run: WorldRun, hasCallback: bool): WorldOutcome {
    var createsSession := run.availability != Available;
    if createsSession && run.sessionFailure.Some? then
      WorldOutcome(true, [], Rejected(run.sessionFailure.value))
    else
      var t := Track(run.start, run.partials, hasCallback);
      match run.final
      case Rejected(e) => WorldOutcome(createsSession, t.reports, Rejected(e))
      case Resolved(w) =>
        if hasCallback then
          var c := t.completed + CompleteIn(WorldRecord(w), AllFields);
          WorldOutcome(createsSession, t.reports + [ProgressState(c, None)], Resolved(w))
        else
          WorldOutcome(createsSession, t.reports, Resolved(w))
  }

  /** `generateWorldData(seedPrompt, onProgress)`; `hasCallback` says
      whether `onProgress` was given. */
  method GenerateWorldData(run: WorldRun, hasCallback: bool)
    returns (createsSession: bool, reports: seq<ProgressState>, result: Settled<WorldData>)
    ensures WorldOutcome(createsSession, reports, result) == WorldSpec(run, hasCallback)
  {
    createsSession := run.availability != Available;
    reports := [];
    if createsSession && run.sessionFailure.Some? {
      result := Rejected(run.sessionFailure.value);
      return;
    }
    var completedFields: set<Field> := {};
    var lastProgressUpdate := run.start;
    ghost var times: seq<int> := [];
    for i := 0 to |run.partials|
      invariant Track(run.start, run.partials[..i], hasCallback) ==
                Tracking(completedFields, lastProgressUpdate, reports, times)
    {
      var partial := run.partials[i];
      assert run.partials[..i + 1][..i] == run.partials[..i];
      assert Track(run.start, run.partials[..i + 1], hasCallback) ==
             TrackStep(Track(run.start, run.partials[..i], hasCallback), partial, hasCallback);
      var now := partial.at;
      if now - lastProgressUpdate > 200 && hasCallback {
        completedFields := UpdateCompletedFields(completedFields, partial.obj, AllFields);
        var currentField := CurrentField(completedFields);
        reports := reports + [ProgressState(completedFields, currentField)];
        times := times + [now];
        lastProgressUpdate := now;
      }
    }
    assert run.partials[..|run.partials|] == run.partials;
    ghost var t := Track(run.start, run.partials, hasCallback);
    assert t.completed == completedFields && t.reports == reports;
    match run.final
    case Rejected(e) =>
      result := Rejected(e);
    case Resolved(worldData) =>
      if hasCallback {
        completedFields := UpdateCompletedFields(completedFields, WorldRecord(worldData), AllFields);
        reports := reports + [ProgressState(completedFields, None)];
      }
      result := Resolved(worldData);
  }

  // ---------------------------------------------------------------------
  // Properties

  /** Each report names as current the first field its set lacks, no
      report's set exceeds the loop's, and the sets only grow. */
  predicate ReportsConsistent(t: Tracking) {
    && (forall k :: 0 <= k < |t.reports| ==> t.reports[k].completedFields <= t.completed)
    && (forall k :: 0 <= k < |t.reports| ==> t.reports[k].currentField == CurrentField(t.reports[k].completedFields))
    && (forall i, j :: 0 <= i < j < |t.reports| ==> t.reports[i].completedFields <= t.reports[j].completedFields)
  }

  /** The loop's reports are consistent, and there is none without a
      callback. */
  lemma {:induction false} TrackReports(start: int, ps: seq<TimedPartial>, hasCallback: bool)
    ensures ReportsConsistent(Track(start, ps, hasCallback))
    ensures !hasCallback ==> Track(start, ps, hasCallback).reports == []
    decreases |ps|
  {
    if ps != [] {
      var t0 := Track(start, ps[..|ps| - 1], hasCallback);
      TrackReports(start, ps[..|ps| - 1], hasCallback);
      var p := ps[|ps| - 1];
      var t := Track(start, ps, hasCallback);
      if p.at - t0.last > 200 && hasCallback {
        var c := t0.completed + CompleteIn(p.obj, AllFields);
        var last := ProgressState(c, CurrentField(c));
        assert t.completed == c && t.reports == t0.reports + [last];
        forall k | 0 <= k < |t.reports|
          ensures t.reports[k].completedFields <= t.completed
          ensures t.reports[k].currentField == CurrentField(t.reports[k].completedFields)
        {
          if k < |t0.reports| {
            assert t.reports[k] == t0.reports[k];
          }
        }
        forall i, j | 0 <= i < j < |t.reports|
          ensures t.reports[i].completedFields <= t.reports[j].completedFields
        {
          assert t.reports[i] == t0.reports[i];
          if j < |t0.reports| {
            assert t.reports[j] == t0.reports[j];
          }
        }
      } else {
        assert t == t0;
      }
    }
  }

  /** Reports are throttled: each one comes more than 200 ms after the
      previous one, and the first more than 200 ms after the start; `last`
      is the moment of the latest report, or the start. */
  predicate Throttled(start: int, t: Tracking) {
    && |t.times| == |t.reports|
    && (t.times != [] ==> t.times[0] > start + 200 && t.last == t.times[|t.times| - 1])
    && (t.times == [] ==> t.last == start)
    && (forall k :: 0 <= k < |t.times| - 1 ==> t.times[k + 1] > t.times[k] + 200)
  }

  lemma {:induction false} TrackTimes(start: int, ps: seq<TimedPartial>, hasCallback: bool)
    ensures Throttled(start, Track(start, ps, hasCallback))
    decreases |ps|
  {
    if ps != [] {
      var t0 := Track(start, ps[..|ps| - 1], hasCallback);
      TrackTimes(start, ps[..|ps| - 1], hasCallback);
      var p := ps[|ps| - 1];
      var t := Track(start, ps, hasCallback);
      if p.at - t0.last > 200 && hasCallback {
        assert t.times == t0.times + [p.at] && t.last == p.at && |t.reports| == |t0.reports| + 1;
        forall k | 0 <= k < |t.times| - 1
          ensures t.times[k + 1] > t.times[k] + 200
        {
          assert t.times[k] == t0.times[k];
        }
      } else {
        assert t == t0;
      }
    }
  }

  /** Across every report of a call (the final one included) each
      completed set contains the previous one's, and every report but the
      last names the first field its set lacks. */
  lemma ReportsGrow(run: WorldRun, hasCallback: bool)
    ensures var rs := WorldSpec(run, hasCallback).reports;
      && (forall i, j :: 0 <= i < j < |rs| ==> rs[i].completedFields <= rs[j].completedFields)
      && (forall k :: 0 <= k < |rs| - 1 ==> rs[k].currentField == CurrentField(rs[k].completedFields))
  {
    TrackReports(run.start, run.partials, hasCallback);
    var t := Track(run.start, run.partials, hasCallback);
    var rs := WorldSpec(run, hasCallback).reports;
    if rs != t.reports && rs != [] {
      var w := run.final.value;
      var last := ProgressState(t.completed + CompleteIn(WorldRecord(w), AllFields), None);
      assert rs == t.reports + [last];
      forall i, j | 0 <= i < j < |rs|
        ensures rs[i].completedFields <= rs[j].completedFields
      {
        assert rs[i] == t.reports[i];
        if j < |t.reports| {
          assert rs[j] == t.reports[j];
        }
      }
      forall k | 0 <= k < |rs| - 1
        ensures rs[k].currentField == CurrentField(rs[k].completedFields)
      {
        assert rs[k] == t.reports[k];
      }
    }
  }

  /** When the world resolves and a callback was given, the last report
      says no field is current and holds exactly the fields recorded by the
      throttled progress reports plus those the final object fills in. A
      field only a throttled-away partial showed complete is not among
      them. The call resolves to that object whatever the partial stream
      did. */
  lemma FinalReport(run: WorldRun, hasCallback: bool, w: WorldData)
    requires run.availability == Available || run.sessionFailure.None?
    requires run.final == Resolved(w)
    ensures var o := WorldSpec(run, hasCallback);
      && o.result == Resolved(w)
      && (hasCallback <==> o.reports != [])
      && (hasCallback ==>
            o.reports[|o.reports| - 1].currentField == None &&
            CompleteIn(WorldRecord(w), AllFields) <= o.reports[|o.reports| - 1].completedFields &&
            Track(run.start, run.partials, hasCallback).completed <= o.reports[|o.reports| - 1].completedFields &&
            forall f :: f in o.reports[|o.reports| - 1].completedFields ==>
              f in Track(run.start, run.partials, hasCallback).completed || f in CompleteIn(WorldRecord(w), AllFields))
  {
    TrackReports(run.start, run.partials, hasCallback);
  }

  /** A partial that arrives within 200 ms of the start is never examined:
      a title it shows filled in is lost when the final object leaves the
      title blank, and the only report does not count it. */
  lemma ThrottledPartialIsForgotten()
    ensures var w := WorldData("", "", "", "", "", None, None, None, "", "");
      var run := WorldRun(Available, None, 0, [TimedPartial(100, map[Title := Str("Dune")])], Resolved(w));
      var o := WorldSpec(run, true);
      && |o.reports| == 1
      && Title in CompleteIn(run.partials[0].obj, AllFields)
      && Title !in o.reports[0].completedFields
  {
    var w := WorldData("", "", "", "", "", None, None, None, "", "");
    var ps := [TimedPartial(100, map[Title := Str("Dune")])];
    assert ps[..0] == [];
    FinalRequiredFieldsComplete(w);
    assert Trim("Dune") != "" by { TrimEmptyIffBlank("Dune"); assert !IsTrimmable("Dune"[0]); }
    assert Trim(w.title) == "" by { TrimEmptyIffBlank(w.title); }
  }

  /** A session is requested exactly when the model is not available; if
      creating it fails, the call rejects with that error before any
      report. */
  lemma SessionOnlyWhenUnavailable(run: WorldRun, hasCallback: bool)
    ensures WorldSpec(run, hasCallback).createsSession <==> run.availability != Available
    ensures run.availability != Available && run.sessionFailure.Some? ==>
      WorldSpec(run, hasCallback) == WorldOutcome(true, [], Rejected(run.sessionFailure.value))
    ensures run.final.Rejected? ==> WorldSpec(run, hasCallback).result.Rejected?
  {
  }
}
