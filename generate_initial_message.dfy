/** `generateInitialMessage`: one structured generation of the opening
    scene, reporting for each partial whose scene is present whether the
    scene already looks complete.

    The model runtime is an input: availability, whether creating a
    session fails, the partial `openingScene` values, and how the final
    object settles. */
module InitialMessage {
  import opened Common
  import opened JsText

  /** The least number of non-blank-trimmed characters of a complete scene. */
  const MinSceneLength := 50

  /** The text the completeness test looks at: the trimmed scene when it is
      a string, and "" otherwise. */
  function SceneText(scene: JsValue): (t: string)
    ensures !scene.Str? ==> t == ""
    ensures scene.Str? ==> |t| <= |scene.s| && IsTrimOf(scene.s, t)
  {
    if scene.Str? then
      TrimShape(scene.s);
      Trim(scene.s)
    else ""
  }

  /** A partial scene counts as complete when its trimmed text has at least
      50 characters. */
  predicate IsSceneComplete(scene: JsValue)
    ensures IsSceneComplete(scene) ==> scene.Str? && |scene.s| >= MinSceneLength
  {
    |SceneText(scene)| >= MinSceneLength
  }

  /** A complete scene is a string of at least 50 characters, at least 50
      of them between its first and last non-whitespace character; a value
      that is not a string is never complete. */
  lemma CompleteSceneIsLongString(scene: JsValue)
    requires IsSceneComplete(scene)
    ensures scene.Str? && |scene.s| >= MinSceneLength
    ensures exists i :: 0 <= i < |scene.s| && !IsTrimmable(scene.s[i])
  {
    TrimEmptyIffBlank(scene.s);
  }

  // ---------------------------------------------------------------------
  // Completeness persists while the scene grows

  lemma {:induction false} TrimStartAppend(s: string, u: string)
    requires exists i :: 0 <= i < |s| && !IsTrimmable(s[i])
    ensures TrimStart(s + u) == TrimStart(s) + u
    decreases |s|
  {
    var i :| 0 <= i < |s| && !IsTrimmable(s[i]);
    assert (s + u)[0] == s[0];
    if IsTrimmable(s[0]) {
      assert i > 0 && s[1..][i - 1] == s[i];
      assert (s + u)[1..] == s[1..] + u;
      TrimStartAppend(s[1..], u);
    }
  }

  lemma {:induction false} TrimEndAppendLonger(x: string, u: string)
    ensures |TrimEnd(x + u)| >= |TrimEnd(x)|
    decreases |u|
  {
    TrimEndShape(x);
    if u != [] {
      var xu := x + u;
      assert xu[|xu| - 1] == u[|u| - 1];
      if IsTrimmable(u[|u| - 1]) {
        assert xu[..|xu| - 1] == x + u[..|u| - 1];
        TrimEndAppendLonger(x, u[..|u| - 1]);
      }
    } else {
      assert x + u == x;
    }
  }

  /** Appending text to a non-blank string never shortens its trimmed form. */
  lemma TrimGrowsWithAppend(s: string, u: string)
    requires Trim(s) != ""
    ensures |Trim(s + u)| >= |Trim(s)|
  {
    TrimEmptyIffBlank(s);
    TrimStartAppend(s, u);
    TrimEndAppendLonger(TrimStart(s), u);
  }

  /** Once a scene is complete, every later scene that extends it is
      complete too (`ReportsSwitchOnce` draws the consequence for the
      reports). */
  lemma CompletenessPersists(s: string, t: string)
    requires StartsWith(t, s)
    requires IsSceneComplete(Str(s))
    ensures IsSceneComplete(Str(t))
  {
    assert t == s + t[|s|..];
    TrimGrowsWithAppend(s, t[|s|..]);
  }

  // ---------------------------------------------------------------------
  // The call

  /** The reports the progress loop makes over `scenes`: one per partial
      whose scene is truthy, saying whether it is complete. */
  function SceneReports(scenes: seq<JsValue>): seq<bool>
    decreases |scenes|
  {
    if scenes == [] then []
    else
      var last := scenes[|scenes| - 1];
      SceneReports(scenes[..|scenes| - 1]) + (if Truthy(last) then [IsSceneComplete(last)] else [])
  }

  /** The truthy scenes, in order: the ones the loop reports on. */
  function TruthyScenes(scenes: seq<JsValue>): seq<JsValue>
    decreases |scenes|
  {
    if scenes == [] then []
    else
      var last := scenes[|scenes| - 1];
      TruthyScenes(scenes[..|scenes| - 1]) + (if Truthy(last) then [last] else [])
  }

  /** Everything the runtime contributes to one call. A partial stream that
      throws is a shorter list of scenes: the error is logged and
      swallowed. */
  datatype SceneRun = SceneRun(
    availability: Availability,
    sessionFailure: Option<Thrown>,
    scenes: seq<JsValue>,
    final: Settled<string>)

  datatype SceneOutcome = SceneOutcome(createsSession: bool, reports: seq<bool>, result: Settled<string>)

  function SceneSpec(run: SceneRun, hasCallback: bool): SceneOutcome {
    var createsSession := run.availability != Available;
    if createsSession && run.sessionFailure.Some? then
      SceneOutcome(true, [], Rejected(run.sessionFailure.value))
    else
      SceneOutcome(createsSession, if hasCallback then SceneReports(run.scenes) else [], run.final)
  }

  /** `generateInitialMessage(worldData, onProgress)`; `hasCallback` says
      whether `onProgress` was given. The prompt built from `worldData`
      only reaches the model, so it is not part of this model. */
  method GenerateInitialMessage(run: SceneRun, hasCallback: bool)
    returns (createsSession: bool, reports: seq<bool>, result: Settled<string>)
    ensures SceneOutcome(createsSession, reports, result) == SceneSpec(run, hasCallback)
  {
    createsSession := run.availability != Available;
    reports := [];
    if createsSession && run.sessionFailure.Some? {
      result := Rejected(run.sessionFailure.value);
      return;
    }
    if hasCallback {
      for i := 0 to |run.scenes|
        invariant reports == SceneReports(run.scenes[..i])
      {
        var openingScene := run.scenes[i];
        assert run.scenes[..i + 1][..i] == run.scenes[..i];
        if Truthy(openingScene) {
          var text := if openingScene.Str? then Trim(openingScene.s) else "";
          var isComplete := |text| >= MinSceneLength;
          reports := reports + [isComplete];
        }
      }
      assert run.scenes[..|run.scenes|] == run.scenes;
    }
    result := run.final;
  }

  /** The k-th report says whether the k-th truthy scene is complete. */
  lemma {:induction false} ReportsFollowTruthyScenes(scenes: seq<JsValue>)
    ensures |SceneReports(scenes)| == |TruthyScenes(scenes)|
    ensures forall k :: 0 <= k < |SceneReports(scenes)| ==>
              SceneReports(scenes)[k] == IsSceneComplete(TruthyScenes(scenes)[k])
    decreases |scenes|
  {
    if scenes != [] {
      var init := scenes[..|scenes| - 1];
      var last := scenes[|scenes| - 1];
      ReportsFollowTruthyScenes(init);
      var r0, t0 := SceneReports(init), TruthyScenes(init);
      if Truthy(last) {
        assert SceneReports(scenes) == r0 + [IsSceneComplete(last)];
        assert TruthyScenes(scenes) == t0 + [last];
      } else {
        assert SceneReports(scenes) == r0 && TruthyScenes(scenes) == t0;
      }
    }
  }

  /** The truthy scenes are scenes of the list, all of them truthy, and
      there are none exactly when no scene is truthy. */
  lemma {:induction false} TruthyScenesFromScenes(scenes: seq<JsValue>)
    ensures |TruthyScenes(scenes)| <= |scenes|
    ensures forall x :: x in TruthyScenes(scenes) ==> Truthy(x) && x in scenes
    ensures (forall k :: 0 <= k < |scenes| ==> !Truthy(scenes[k])) <==> TruthyScenes(scenes) == []
    decreases |scenes|
  {
    if scenes != [] {
      var init := scenes[..|scenes| - 1];
      var last := scenes[|scenes| - 1];
      TruthyScenesFromScenes(init);
      assert forall k :: 0 <= k < |init| ==> init[k] == scenes[k];
      assert forall x :: x in init ==> x in scenes;
      if Truthy(last) {
        assert TruthyScenes(scenes) == TruthyScenes(init) + [last];
      } else {
        assert TruthyScenes(scenes) == TruthyScenes(init);
      }
    }
  }

  /** There is one report per truthy scene and none otherwise, and each
      report says whether its scene is complete; so a report of completion
      always stands for a complete scene. */
  lemma ReportsMatchScenes(scenes: seq<JsValue>)
    ensures |SceneReports(scenes)| == |TruthyScenes(scenes)| <= |scenes|
    ensures forall k :: 0 <= k < |SceneReports(scenes)| ==>
              SceneReports(scenes)[k] == IsSceneComplete(TruthyScenes(scenes)[k])
    ensures forall x :: x in TruthyScenes(scenes) ==> Truthy(x) && x in scenes
    ensures (forall k :: 0 <= k < |scenes| ==> !Truthy(scenes[k])) <==> SceneReports(scenes) == []
    ensures (forall k :: 0 <= k < |scenes| ==> IsSceneComplete(scenes[k])) ==>
              forall k :: 0 <= k < |SceneReports(scenes)| ==> SceneReports(scenes)[k]
  {
    ReportsFollowTruthyScenes(scenes);
    TruthyScenesFromScenes(scenes);
    var t := TruthyScenes(scenes);
    forall k | 0 <= k < |t|
      ensures t[k] in scenes
    {
      assert t[k] in t;
    }
  }

  /** Each scene extends every earlier one that is a string, as a
      streamed string does. */
  predicate Extending(scenes: seq<JsValue>) {
    forall i, j :: 0 <= i < j < |scenes| && scenes[i].Str? ==>
      scenes[j].Str? && StartsWith(scenes[j].s, scenes[i].s)
  }

  /** A report of completion comes from some complete scene. */
  lemma TrueReportHasCompleteScene(scenes: seq<JsValue>, i: nat)
    requires i < |SceneReports(scenes)| && SceneReports(scenes)[i]
    ensures exists m :: 0 <= m < |scenes| && IsSceneComplete(scenes[m])
  {
    ReportsMatchScenes(scenes);
    var x := TruthyScenes(scenes)[i];
    assert x in TruthyScenes(scenes);
  }

  /** In an extending stream, every scene after a complete one is complete. */
  lemma CompleteStaysComplete(scenes: seq<JsValue>, m: nat, j: nat)
    requires Extending(scenes) && m < j < |scenes| && IsSceneComplete(scenes[m])
    ensures IsSceneComplete(scenes[j])
  {
    CompleteSceneIsLongString(scenes[m]);
    CompletenessPersists(scenes[m].s, scenes[j].s);
  }

  /** When every scene extends the earlier ones, the reports switch from
      incomplete to complete at most once and never back. */
  lemma {:induction false} ReportsSwitchOnce(scenes: seq<JsValue>)
    requires Extending(scenes)
    ensures forall i, j :: 0 <= i < j < |SceneReports(scenes)| && SceneReports(scenes)[i] ==>
              SceneReports(scenes)[j]
    decreases |scenes|
  {
    if scenes != [] {
      var init := scenes[..|scenes| - 1];
      var last := scenes[|scenes| - 1];
      assert forall k :: 0 <= k < |init| ==> init[k] == scenes[k];
      assert Extending(init);
      ReportsSwitchOnce(init);
      var r0 := SceneReports(init);
      if Truthy(last) {
        var r := SceneReports(scenes);
        assert r == r0 + [IsSceneComplete(last)];
        forall i, j | 0 <= i < j < |r| && r[i]
          ensures r[j]
        {
          assert r[i] == r0[i];
          if j < |r0| {
            assert r[j] == r0[j];
          } else {
            TrueReportHasCompleteScene(init, i);
            var m :| 0 <= m < |init| && IsSceneComplete(init[m]);
            CompleteStaysComplete(scenes, m, |scenes| - 1);
          }
        }
      } else {
        assert SceneReports(scenes) == r0;
      }
    }
  }

  /** The call settles as `result.object` does, whether or not a callback
      was given and whatever the partial stream did, unless creating the
      session failed; a session is requested only for a model that is not
      available. */
  lemma ResultIsFinalScene(run: SceneRun, hasCallback: bool)
    ensures SceneSpec(run, hasCallback).createsSession <==> run.availability != Available
    ensures run.availability == Available || run.sessionFailure.None? ==>
      SceneSpec(run, hasCallback).result == run.final &&
      SceneSpec(run, true).result == SceneSpec(run, false).result
    ensures !hasCallback ==> SceneSpec(run, hasCallback).reports == []
  {
  }
}
