/** The world store: the generated world, the prompt it was generated from
    and the opening scene, each absent (`null`) until set. */
module Worlds {
  import opened Common

  datatype Character = Character(name: string, description: string, role: string)
  datatype Item = Item(name: string, description: string)

  /** The generated world, as its schema declares it. */
  datatype WorldData = WorldData(
    title: string,
    description: string,
    setting: string,
    startingLocation: string,
    initialSituation: string,
    characters: Option<seq<Character>>,
    items: Option<seq<Item>>,
    goals: Option<seq<string>>,
    tone: string,
    genre: string)

  class WorldStore {
    var worldData: Option<WorldData>
    var seedPrompt: Option<string>
    var initialMessage: Option<string>

    /** All three slots start empty. */
    constructor ()
      ensures worldData == None && seedPrompt == None && initialMessage == None
    {
      worldData, seedPrompt, initialMessage := None, None, None;
    }

    method SetWorldData(w: WorldData)
      modifies this
      ensures worldData == Some(w)
      ensures seedPrompt == old(seedPrompt) && initialMessage == old(initialMessage)
    {
      worldData := Some(w);
    }

    method SetSeedPrompt(p: string)
      modifies this
      ensures seedPrompt == Some(p)
      ensures worldData == old(worldData) && initialMessage == old(initialMessage)
    {
      seedPrompt := Some(p);
    }

    method SetInitialMessage(m: string)
      modifies this
      ensures initialMessage == Some(m)
      ensures worldData == old(worldData) && seedPrompt == old(seedPrompt)
    {
      initialMessage := Some(m);
    }

    /** Empties all three slots; doing it again changes nothing. */
    method ClearWorld()
      modifies this
      ensures worldData == None && seedPrompt == None && initialMessage == None
    {
      worldData, seedPrompt, initialMessage := None, None, None;
    }
  }

  /** The three slots of the store, as one value. */
  datatype StoreState = StoreState(worldData: Option<WorldData>, seedPrompt: Option<string>, initialMessage: Option<string>)

  const Empty := StoreState(None, None, None)

  /** A call a client makes on the store. */
  datatype StoreCall = SetWorld(w: WorldData) | SetSeed(p: string) | SetMessage(m: string) | Clear

  function Apply(st: StoreState, c: StoreCall): StoreState {
    match c
    case SetWorld(w) => st.(worldData := Some(w))
    case SetSeed(p) => st.(seedPrompt := Some(p))
    case SetMessage(m) => st.(initialMessage := Some(m))
    case Clear => Empty
  }

  /** The state after the calls, made in order. */
  function Replay(st: StoreState, calls: seq<StoreCall>): StoreState
    decreases |calls|
  {
    if calls == [] then st else Apply(Replay(st, calls[..|calls| - 1]), calls[|calls| - 1])
  }

  /** Makes the calls on `store`, one after the other. */
  method RunCalls(store: WorldStore, calls: seq<StoreCall>)
    modifies store
    ensures StoreState(store.worldData, store.seedPrompt, store.initialMessage) ==
            Replay(old(StoreState(store.worldData, store.seedPrompt, store.initialMessage)), calls)
  {
    ghost var start := StoreState(store.worldData, store.seedPrompt, store.initialMessage);
    for i := 0 to |calls|
      invariant StoreState(store.worldData, store.seedPrompt, store.initialMessage) == Replay(start, calls[..i])
    {
      assert calls[..i + 1][..i] == calls[..i];
      match calls[i]
      case SetWorld(w) => store.SetWorldData(w);
      case SetSeed(p) => store.SetSeedPrompt(p);
      case SetMessage(m) => store.SetInitialMessage(m);
      case Clear => store.ClearWorld();
    }
    assert calls[..|calls|] == calls;
  }

  lemma {:induction false} ReplayAppend(st: StoreState, a: seq<StoreCall>, b: seq<StoreCall>)
    ensures Replay(st, a + b) == Replay(Replay(st, a), b)
    decreases |b|
  {
    if b == [] {
      assert a + b == a;
    } else {
      assert (a + b)[..|a + b| - 1] == a + b[..|b| - 1];
      ReplayAppend(st, a, b[..|b| - 1]);
    }
  }

  /** A clear forgets everything before it: what follows starts from the
      empty store, whatever the state and calls before. Clearing twice is
      clearing once. */
  lemma ClearForgetsHistory(st: StoreState, before: seq<StoreCall>, after: seq<StoreCall>)
    ensures Replay(st, before + [Clear] + after) == Replay(Empty, after)
    ensures Replay(st, before + [Clear, Clear]) == Replay(st, before + [Clear]) == Empty
  {
    ReplayAppend(st, before + [Clear], after);
    assert (before + [Clear, Clear])[..|before| + 1] == before + [Clear];
  }

  /** The seed prompt is the one set by the last `setSeedPrompt` with no
      `clearWorld` after it; the other setters never touch it. */
  lemma {:induction false} LastSeedWins(st: StoreState, calls: seq<StoreCall>, i: nat)
    requires i < |calls| && calls[i].SetSeed?
    requires forall j :: i < j < |calls| ==> !calls[j].SetSeed? && !calls[j].Clear?
    ensures Replay(st, calls).seedPrompt == Some(calls[i].p)
    decreases |calls|
  {
    if i < |calls| - 1 {
      var init := calls[..|calls| - 1];
      assert forall j :: 0 <= j < |init| ==> init[j] == calls[j];
      LastSeedWins(st, init, i);
    }
  }
}
