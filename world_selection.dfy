/** The world-selection screen: choosing a seed prompt or typing a custom
    one (never both), deciding whether and with which prompt an adventure
    can start, and the progress shown while the world and its opening
    scene are generated. */
module WorldSelection {
  import opened Common
  import opened JsText
  import opened Worlds
  import opened GenerateWorld
  import opened InitialMessage

  /** What `currentField` can name: a world field, or `"openingScene"`
      while the opening scene is written. */
  datatype Cell = WorldCell(field: Field) | OpeningScene

  /** The cell a world progress report names as current. */
  function ReportedCell(currentField: Option<Field>): Option<Cell> {
    if currentField.Some? then Some(WorldCell(currentField.value)) else None
  }

  // ---------------------------------------------------------------------
  // Derived values, on the screen's state cells

  /** `canStartAdventure` */
  predicate CanStart(selectedSeed: Option<string>, customPrompt: string)
    ensures CanStart(selectedSeed, customPrompt) <==>
      selectedSeed.Some? || exists i :: 0 <= i < |customPrompt| && !IsTrimmable(customPrompt[i])
  {
    TrimEmptyIffBlank(customPrompt);
    selectedSeed.Some? || |Trim(customPrompt)| > 0
  }

  /** `selectedSeed || customPrompt.trim()`: a null or empty seed falls
      through to the trimmed custom prompt. */
  function ResolvePrompt(selectedSeed: Option<string>, customPrompt: string): (r: string)
    ensures r != "" ==> CanStart(selectedSeed, customPrompt)
  {
    if selectedSeed.Some? && selectedSeed.value != "" then selectedSeed.value else Trim(customPrompt)
  }

  /** A world field's row is shown as in progress when it is the current
      field and not yet completed. */
  predicate IsCurrent(currentField: Option<Cell>, completedFields: set<Field>, f: Field) {
    currentField == Some(WorldCell(f)) && f !in completedFields
  }

  /** The opening scene's row is shown as in progress when the scene is not
      yet complete and it is the current field. */
  predicate SceneShownInProgress(isInitialMessageComplete: bool, currentField: Option<Cell>) {
    !isInitialMessageComplete && currentField == Some(OpeningScene)
  }

  /** The resolved prompt prefers the seed; a non-empty resolved prompt
      implies the start button is enabled, and the converse holds unless
      the seed is the empty string. */
  lemma ResolvedPromptChoice(selectedSeed: Option<string>, customPrompt: string)
    ensures selectedSeed.Some? && selectedSeed.value != "" ==>
      ResolvePrompt(selectedSeed, customPrompt) == selectedSeed.value
    ensures selectedSeed.None? ==> ResolvePrompt(selectedSeed, customPrompt) == Trim(customPrompt)
    ensures ResolvePrompt(selectedSeed, customPrompt) != "" ==> CanStart(selectedSeed, customPrompt)
    ensures CanStart(selectedSeed, customPrompt) && selectedSeed != Some("") ==>
      ResolvePrompt(selectedSeed, customPrompt) != ""
    ensures ResolvePrompt(selectedSeed, customPrompt) == Trim(customPrompt) ==>
      IsTrimmed(ResolvePrompt(selectedSeed, customPrompt))
  {
    TrimShape(customPrompt);
  }

  /** At most one field is shown as in progress, and never a completed one. */
  lemma AtMostOneCurrent(currentField: Option<Cell>, completedFields: set<Field>, a: Field, b: Field)
    ensures IsCurrent(currentField, completedFields, a) && IsCurrent(currentField, completedFields, b) ==> a == b
    ensures a in completedFields ==> !IsCurrent(currentField, completedFields, a)
  {
  }

  /** After a progress report of the world generation, exactly the field
      it names as current is shown as in progress. */
  lemma ReportedFieldIsShownCurrent(r: ProgressState, f: Field)
    requires r.currentField == CurrentField(r.completedFields)
    ensures IsCurrent(ReportedCell(r.currentField), r.completedFields, f) <==> r.currentField == Some(f)
  {
  }

  // ---------------------------------------------------------------------
  // The generation progress, as a function of the runs

  /** The progress cells of the screen. */
  datatype Progress = Progress(
    isGenerating: bool,
    completedFields: set<Field>,
    currentField: Option<Cell>,
    isInitialMessageComplete: bool)

  /** The world generation's callback applied to each report in turn. */
  function ApplyWorldReports(p: Progress, reports: seq<ProgressState>): Progress
    decreases |reports|
  {
    if reports == [] then p
    else
      var r := reports[|reports| - 1];
      ApplyWorldReports(p, reports[..|reports| - 1]).(completedFields := r.completedFields, currentField := ReportedCell(r.currentField))
  }

  /** The opening scene's callback applied to each report in turn. */
  function ApplySceneReports(p: Progress, reports: seq<bool>): Progress
    decreases |reports|
  {
    if reports == [] then p
    else ApplySceneReports(p, reports[..|reports| - 1]).(isInitialMessageComplete := reports[|reports| - 1])
  }

  /** The `catch` block of `handleStartAdventure`. */
  const Reset := Progress(false, {}, None, false)

  /** `handleStartAdventure`, given how the world and the opening scene
      generations went (both with a progress callback). */
  function StartSpec(p: Progress, world: WorldOutcome, scene: SceneOutcome): Progress {
    var generating := p.(isGenerating := true, completedFields := {});
    var afterWorld := ApplyWorldReports(generating, world.reports);
    if world.result.Rejected? then Reset
    else ScenePhase(afterWorld, scene)
  }

  /** The second half of `handleStartAdventure`, once the world is stored:
      show the opening scene as current while it is written, then finish
      or reset. */
  function ScenePhase(afterWorld: Progress, scene: SceneOutcome): Progress {
    var writing := afterWorld.(isInitialMessageComplete := false, currentField := Some(OpeningScene));
    var afterScene := ApplySceneReports(writing, scene.reports);
    if scene.result.Rejected? then Reset
    else afterScene.(isInitialMessageComplete := true, currentField := None)
  }

  lemma {:induction false} ApplyWorldReportsLast(p: Progress, reports: seq<ProgressState>)
    ensures var q := ApplyWorldReports(p, reports);
      && q.isGenerating == p.isGenerating && q.isInitialMessageComplete == p.isInitialMessageComplete
      && (reports == [] ==> q == p)
      && (reports != [] ==>
            q.completedFields == reports[|reports| - 1].completedFields &&
            q.currentField == ReportedCell(reports[|reports| - 1].currentField))
    decreases |reports|
  {
    if reports != [] {
      ApplyWorldReportsLast(p, reports[..|reports| - 1]);
    }
  }

  lemma {:induction false} ApplySceneReportsLast(p: Progress, reports: seq<bool>)
    ensures var q := ApplySceneReports(p, reports);
      && q.(isInitialMessageComplete := p.isInitialMessageComplete) == p
      && (reports != [] ==> q.isInitialMessageComplete == reports[|reports| - 1])
    decreases |reports|
  {
    if reports != [] {
      ApplySceneReportsLast(p, reports[..|reports| - 1]);
    }
  }

  /** Any failure, of either generation, leaves the dialog closed and every
      progress cell reset, whatever was reported before. */
  lemma FailureResetsProgress(p: Progress, world: WorldOutcome, scene: SceneOutcome)
    requires world.result.Rejected? || scene.result.Rejected?
    ensures StartSpec(p, world, scene) == Reset
  {
  }

  /** When the world and the opening scene are generated, the dialog ends
      with every field the final world fills in marked, no row shown in
      progress, and the opening scene marked done. */
  lemma SuccessShowsEverythingDone(p: Progress, worldRun: WorldRun, scene: SceneOutcome, w: WorldData)
    requires worldRun.availability == Available || worldRun.sessionFailure.None?
    requires worldRun.final == Resolved(w) && scene.result.Resolved?
    ensures var q := StartSpec(p, WorldSpec(worldRun, true), scene);
      && q.isGenerating && q.isInitialMessageComplete && q.currentField == None
      && CompleteIn(WorldRecord(w), AllFields) <= q.completedFields
      && (forall f :: !IsCurrent(q.currentField, q.completedFields, f))
      && !SceneShownInProgress(q.isInitialMessageComplete, q.currentField)
  {
    var world := WorldSpec(worldRun, true);
    FinalReport(worldRun, true, w);
    var generating := p.(isGenerating := true, completedFields := {});
    ApplyWorldReportsLast(generating, world.reports);
    var afterWorld := ApplyWorldReports(generating, world.reports);
    var writing := afterWorld.(isInitialMessageComplete := false, currentField := Some(OpeningScene));
    ApplySceneReportsLast(writing, scene.reports);
  }

  /** While the opening scene is being written, it is the current field:
      no world field is shown as in progress, and the scene's row is until
      a report says the scene is complete. */
  lemma OpeningSceneShownWhileWriting(p: Progress, world: WorldOutcome, sceneReports: seq<bool>)
    ensures var generating := p.(isGenerating := true, completedFields := {});
            var afterWorld := ApplyWorldReports(generating, world.reports);
            var writing := afterWorld.(isInitialMessageComplete := false, currentField := Some(OpeningScene));
            var q := ApplySceneReports(writing, sceneReports);
      && q.currentField == Some(OpeningScene)
      && (forall f :: !IsCurrent(q.currentField, q.completedFields, f))
      && (SceneShownInProgress(q.isInitialMessageComplete, q.currentField) <==>
            sceneReports == [] || !sceneReports[|sceneReports| - 1])
  {
    var generating := p.(isGenerating := true, completedFields := {});
    var afterWorld := ApplyWorldReports(generating, world.reports);
    var writing := afterWorld.(isInitialMessageComplete := false, currentField := Some(OpeningScene));
    ApplySceneReportsLast(writing, sceneReports);
  }

  // ---------------------------------------------------------------------
  // The screen

  class SelectionScreen {
    var customPrompt: string
    var selectedSeed: Option<string>
    var isGenerating: bool
    var completedFields: set<Field>
    var currentField: Option<Cell>
    var isInitialMessageComplete: bool

    /** A seed and a non-empty custom prompt are never selected together. */
    predicate Exclusive()
      reads this
    {
      !(selectedSeed.Some? && customPrompt != "")
    }

    function Snapshot(): Progress
      reads this
    {
      Progress(isGenerating, completedFields, currentField, isInitialMessageComplete)
    }

    constructor ()
      ensures customPrompt == "" && selectedSeed == None
      ensures Snapshot() == Progress(false, {}, None, false)
      ensures Exclusive()
    {
      customPrompt, selectedSeed := "", None;
      isGenerating, completedFields, currentField, isInitialMessageComplete := false, {}, None, false;
    }

    /** `handleSeedSelect`: select the seed and empty the custom prompt. */
    method HandleSeedSelect(seedPrompt: string)
      modifies this
      ensures selectedSeed == Some(seedPrompt) && customPrompt == ""
      ensures Snapshot() == old(Snapshot())
      ensures Exclusive()
    {
      selectedSeed := Some(seedPrompt);
      customPrompt := "";
    }

    /** `handleCustomPromptChange`: take the typed text and drop the seed. */
    method HandleCustomPromptChange(value: string)
      modifies this
      ensures customPrompt == value && selectedSeed == None
      ensures Snapshot() == old(Snapshot())
      ensures Exclusive()
    {
      customPrompt := value;
      selectedSeed := None;
    }

    method ApplyWorldProgress(reports: seq<ProgressState>)
      modifies this
      ensures Snapshot() == ApplyWorldReports(old(Snapshot()), reports)
      ensures customPrompt == old(customPrompt) && selectedSeed == old(selectedSeed)
    {
      ghost var start := Snapshot();
      for i := 0 to |reports|
        invariant Snapshot() == ApplyWorldReports(start, reports[..i])
        invariant customPrompt == old(customPrompt) && selectedSeed == old(selectedSeed)
      {
        assert reports[..i + 1][..i] == reports[..i];
        completedFields := reports[i].completedFields;
        currentField := ReportedCell(reports[i].currentField);
      }
      assert reports[..|reports|] == reports;
    }

    method ApplySceneProgress(reports: seq<bool>)
      modifies this
      ensures Snapshot() == ApplySceneReports(old(Snapshot()), reports)
      ensures customPrompt == old(customPrompt) && selectedSeed == old(selectedSeed)
    {
      ghost var start := Snapshot();
      for i := 0 to |reports|
        invariant Snapshot() == ApplySceneReports(start, reports[..i])
        invariant customPrompt == old(customPrompt) && selectedSeed == old(selectedSeed)
      {
        assert reports[..i + 1][..i] == reports[..i];
        isInitialMessageComplete := reports[i];
      }
      assert reports[..|reports|] == reports;
    }

    method FailGeneration()
      modifies this
      ensures Snapshot() == Reset
      ensures customPrompt == old(customPrompt) && selectedSeed == old(selectedSeed)
    {
      isGenerating := false;
      completedFields := {};
      currentField := None;
      isInitialMessageComplete := false;
    }

    /** `handleStartAdventure(prompt)`: store the prompt, generate the world
        and then the opening scene while showing their progress, store
        both, and navigate to the chat; on any failure, reset the progress.
        Returns whether it navigates. */
    method HandleStartAdventure(prompt: string, store: WorldStore, worldRun: WorldRun, sceneRun: SceneRun)
      returns (navigated: bool)
      modifies this, store
      ensures Snapshot() == StartSpec(old(Snapshot()), WorldSpec(worldRun, true), SceneSpec(sceneRun, true))
      ensures customPrompt == old(customPrompt) && selectedSeed == old(selectedSeed)
      ensures store.seedPrompt == Some(prompt)
      ensures store.worldData == (if worldRun.final.Resolved? && WorldSpec(worldRun, true).result.Resolved?
                                  then Some(worldRun.final.value) else old(store.worldData))
      ensures navigated <==> WorldSpec(worldRun, true).result.Resolved? && SceneSpec(sceneRun, true).result.Resolved?
      ensures store.initialMessage ==
        (if navigated then Some(SceneSpec(sceneRun, true).result.value) else old(store.initialMessage))
    {
      ghost var world := WorldSpec(worldRun, true);
      ghost var scene := SceneSpec(sceneRun, true);
      ghost var generating := old(Snapshot()).(isGenerating := true, completedFields := {});
      isGenerating := true;
      store.SetSeedPrompt(prompt);
      completedFields := {};
      assert Snapshot() == generating;

      var _, worldReports, worldResult := GenerateWorldData(worldRun, true);
      assert worldReports == world.reports && worldResult == world.result;
      ApplyWorldProgress(worldReports);
      if worldResult.Rejected? {
        FailGeneration();
        return false;
      }
      var worldData := worldResult.value;
      store.SetWorldData(worldData);

      navigated := RunScene(store, sceneRun);
    }

    /** Generate the opening scene once the world is stored, showing its
        progress; store it and navigate, or reset on failure. */
    method RunScene(store: WorldStore, sceneRun: SceneRun) returns (navigated: bool)
      modifies this, store
      ensures Snapshot() == ScenePhase(old(Snapshot()), SceneSpec(sceneRun, true))
      ensures customPrompt == old(customPrompt) && selectedSeed == old(selectedSeed)
      ensures store.seedPrompt == old(store.seedPrompt) && store.worldData == old(store.worldData)
      ensures navigated <==> SceneSpec(sceneRun, true).result.Resolved?
      ensures store.initialMessage ==
        (if navigated then Some(SceneSpec(sceneRun, true).result.value) else old(store.initialMessage))
    {
      ghost var scene := SceneSpec(sceneRun, true);
      ghost var writing := Snapshot().(isInitialMessageComplete := false, currentField := Some(OpeningScene));
      isInitialMessageComplete := false;
      currentField := Some(OpeningScene);
      assert Snapshot() == writing;
      var _, sceneReports, sceneResult := GenerateInitialMessage(sceneRun, true);
      assert sceneReports == scene.reports && sceneResult == scene.result;
      ApplySceneProgress(sceneReports);
      if sceneResult.Rejected? {
        FailGeneration();
        return false;
      }
      store.SetInitialMessage(sceneResult.value);
      isInitialMessageComplete := true;
      currentField := None;
      navigated := true;
    }

    /** The start button: disabled unless an adventure can start and none
        is being generated; when clicked, it starts one only with a
        non-empty resolved prompt. Returns whether generation started. */
    method ClickStart(store: WorldStore, worldRun: WorldRun, sceneRun: SceneRun)
      returns (started: bool, navigated: bool)
      modifies this, store
      ensures started <==>
        old(CanStart(selectedSeed, customPrompt)) && !old(isGenerating) &&
        old(ResolvePrompt(selectedSeed, customPrompt)) != ""
      ensures started ==> store.seedPrompt == Some(old(ResolvePrompt(selectedSeed, customPrompt)))
      ensures started ==> Snapshot() == StartSpec(old(Snapshot()), WorldSpec(worldRun, true), SceneSpec(sceneRun, true))
      ensures navigated <==>
        started && WorldSpec(worldRun, true).result.Resolved? && SceneSpec(sceneRun, true).result.Resolved?
      ensures started ==>
        (store.worldData ==
           if WorldSpec(worldRun, true).result.Resolved? then Some(worldRun.final.value) else old(store.worldData))
      ensures store.initialMessage ==
        (if navigated then Some(SceneSpec(sceneRun, true).result.value) else old(store.initialMessage))
      ensures !started ==> Snapshot() == old(Snapshot())
      ensures !started ==> store.worldData == old(store.worldData) && store.seedPrompt == old(store.seedPrompt)
      ensures customPrompt == old(customPrompt) && selectedSeed == old(selectedSeed)
    {
      started, navigated := false, false;
      if !CanStart(selectedSeed, customPrompt) || isGenerating {
        return;
      }
      var prompt := ResolvePrompt(selectedSeed, customPrompt);
      if prompt != "" {
        started := true;
        navigated := HandleStartAdventure(prompt, store, worldRun, sceneRun);
      }
    }
  }

  /** Whatever sequence of selections and edits is made from the initial
      screen, a seed and a custom prompt are never chosen together. */
  method SelectionsStayExclusive(choices: seq<Option<string>>, typed: seq<string>)
    returns (screen: SelectionScreen)
    requires |choices| == |typed|
    ensures fresh(screen) && screen.Exclusive()
  {
    screen := new SelectionScreen();
    for i := 0 to |choices|
      invariant screen.Exclusive()
    {
      if choices[i].Some? {
        screen.HandleSeedSelect(choices[i].value);
      } else {
        screen.HandleCustomPromptChange(typed[i]);
      }
    }
  }
}
