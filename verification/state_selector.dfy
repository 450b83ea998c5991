/**
 * The animation state selector of a character's animation graph
 * (AnimGraph_StateSelector and its runtime Instance).
 *
 * A list of controller definitions binds each animation state to a
 * sub-controller template, a default transition time and custom
 * transition times from chosen source states. The instance creates one
 * sub-controller per distinct template, gives each a mixer port and a
 * duration table, and fills one slot per animation state. Every tick it
 * classifies the character's locomotion state, keeps track of the current
 * and previous animation states, and blends towards the current state's
 * port at a rate derived from the duration table.
 */
module StateSelector {
  import opened Wrappers
  import Locomotion

  // ---------------------------------------------------------------------
  // Animation states
  // ---------------------------------------------------------------------

  /** CharacterAnimationState, by ordinal: the five states and the sentinel NumStates. */
  type AnimState = s: int | 0 <= s <= 5

  const Stand: AnimState := 0
  const Run: AnimState := 1
  const Jump: AnimState := 2
  const InAir: AnimState := 3
  const Dead: AnimState := 4
  /** Number of real states; also used as the "no state yet" sentinel. */
  const NumStates: AnimState := 5

  /**
   * The classifier from locomotion state to animation state. It is total,
   * never yields the sentinel, and each non-Stand animation state has
   * exactly the preimage listed; every other locomotion value is Stand.
   */
  function GetAnimState(loco: Locomotion.LocoState): (s: AnimState)
    ensures s < NumStates
    ensures s == Run <==> loco == Locomotion.GroundMove
    ensures s == Jump <==> loco == Locomotion.Jump
    ensures s == InAir <==> loco == Locomotion.DoubleJump || loco == Locomotion.InAir
    ensures s == Dead <==> loco == Locomotion.Dead
  {
    match loco
    case Stand => Stand
    case GroundMove => Run
    case Jump => Jump
    case DoubleJump => InAir
    case InAir => InAir
    case Dead => Dead
    case Other(_) => Stand
  }

  /** Locomotion values outside the classifier's table fall back to Stand. */
  lemma UnlistedLocoIsStand(code: int)
    ensures GetAnimState(Locomotion.Other(code)) == Stand
  {
  }

  /** Every real animation state is the classification of some locomotion state. */
  lemma EveryStateIsReachable(s: AnimState)
    requires s < NumStates
    ensures exists loco :: GetAnimState(loco) == s
  {
    var loco :=
      if s == Stand then Locomotion.Stand
      else if s == Run then Locomotion.GroundMove
      else if s == Jump then Locomotion.Jump
      else if s == InAir then Locomotion.InAir
      else Locomotion.Dead;
    assert GetAnimState(loco) == s;
  }

  // ---------------------------------------------------------------------
  // Definitions (the serialized settings of the asset)
  // ---------------------------------------------------------------------

  /**
   * A sub-controller template (an animation graph asset), by identity.
   * `implementsGraphState` says whether the instances it creates also offer
   * the per-state logic update (IGraphState).
   */
  datatype Template = Template(id: nat, implementsGraphState: bool)

  /** A live sub-controller: the `serial`-th instance created, from `template`. */
  datatype Controller = Controller(serial: nat, template: Template)

  /** A custom transition time, used when entering a state from `sourceState`. */
  datatype TransitionDefinition = TransitionDefinition(sourceState: AnimState, transitionTime: real)

  /** One entry of the settings' controller list; `template` is None for a null asset. */
  datatype ControllerDefinition = ControllerDefinition(
    animationState: AnimState,
    template: Option<Template>,
    transitionTime: real,
    customTransitions: seq<TransitionDefinition>)

  /** The i-th definition is the first one that names its (non-null) template. */
  predicate FirstOfTemplate(defs: seq<ControllerDefinition>, i: int)
    requires 0 <= i < |defs|
  {
    defs[i].template.Some? && forall j :: 0 <= j < i ==> defs[j].template != defs[i].template
  }

  /** The i-th definition is the first one that names its animation state. */
  predicate FirstOfState(defs: seq<ControllerDefinition>, i: int)
    requires 0 <= i < |defs|
  {
    forall j :: 0 <= j < i ==> defs[j].animationState != defs[i].animationState
  }

  /** Every custom transition of `d` names a real source state. */
  predicate SourcesInRange(d: ControllerDefinition)
  {
    forall k :: 0 <= k < |d.customTransitions| ==> d.customTransitions[k].sourceState < NumStates
  }

  /** Duration tables are only built for the first definition of each template. */
  predicate TransitionsInRange(defs: seq<ControllerDefinition>)
  {
    forall i :: 0 <= i < |defs| && FirstOfTemplate(defs, i) ==> SourcesInRange(defs[i])
  }

  /**
   * What construction needs in order not to fail: every definition names a
   * real state (its slot is indexed), the custom transitions that are
   * applied name real source states, and the definition that fills a slot
   * has a template (its controller is looked up by template).
   */
  predicate WellFormed(defs: seq<ControllerDefinition>)
  {
    && (forall i :: 0 <= i < |defs| ==> defs[i].animationState < NumStates)
    && TransitionsInRange(defs)
    && (forall i {:trigger FirstOfState(defs, i)} :: 0 <= i < |defs| && FirstOfState(defs, i) ==> defs[i].template.Some?)
  }

  // ---------------------------------------------------------------------
  // Duration tables
  // ---------------------------------------------------------------------

  /** A table with the same duration for every source state. */
  function DefaultTimes(time: real): (times: seq<real>)
    ensures |times| == NumStates
  {
    seq(NumStates, _ => time)
  }

  /** The table after writing each custom transition over it, in order. */
  function ApplyOverrides(times: seq<real>, custom: seq<TransitionDefinition>): (r: seq<real>)
    requires |times| == NumStates
    requires forall k :: 0 <= k < |custom| ==> custom[k].sourceState < NumStates
    ensures |r| == NumStates
    decreases |custom|
  {
    if custom == [] then times
    else
      var n := |custom| - 1;
      ApplyOverrides(times, custom[..n])[custom[n].sourceState := custom[n].transitionTime]
  }

  /** The duration table a definition yields: its default, then its custom transitions. */
  function TimesTable(d: ControllerDefinition): (times: seq<real>)
    requires SourcesInRange(d)
    ensures |times| == NumStates
  {
    ApplyOverrides(DefaultTimes(d.transitionTime), d.customTransitions)
  }

  /**
   * The duration from source state `s` is the time of the LAST custom
   * transition naming `s`, or the default when none names it.
   */
  lemma {:induction false} OverrideLookup(times: seq<real>, custom: seq<TransitionDefinition>, s: AnimState)
    requires |times| == NumStates && s < NumStates
    requires forall k :: 0 <= k < |custom| ==> custom[k].sourceState < NumStates
    ensures (forall k :: 0 <= k < |custom| ==> custom[k].sourceState != s) ==>
              ApplyOverrides(times, custom)[s] == times[s]
    ensures forall k :: 0 <= k < |custom| && custom[k].sourceState == s &&
                        (forall j :: k < j < |custom| ==> custom[j].sourceState != s) ==>
              ApplyOverrides(times, custom)[s] == custom[k].transitionTime
    decreases |custom|
  {
    if custom != [] {
      var n := |custom| - 1;
      OverrideLookup(times, custom[..n], s);
      assert forall k :: 0 <= k < n ==> custom[..n][k] == custom[k];
    }
  }

  /** The same lookup for a definition's table. */
  lemma TimesTableLookup(d: ControllerDefinition, s: AnimState)
    requires SourcesInRange(d) && s < NumStates
    ensures (forall k :: 0 <= k < |d.customTransitions| ==> d.customTransitions[k].sourceState != s) ==>
              TimesTable(d)[s] == d.transitionTime
    ensures forall k :: 0 <= k < |d.customTransitions| && d.customTransitions[k].sourceState == s &&
                        (forall j :: k < j < |d.customTransitions| ==> d.customTransitions[j].sourceState != s) ==>
              TimesTable(d)[s] == d.customTransitions[k].transitionTime
  {
    OverrideLookup(DefaultTimes(d.transitionTime), d.customTransitions, s);
  }

  // ---------------------------------------------------------------------
  // First pass of construction: one controller per distinct template
  // ---------------------------------------------------------------------

  /**
   * The dictionaries the first pass of construction fills: template to
   * controller, controller to mixer port, controller to duration table, and
   * the list of mixer ports in creation order.
   */
  datatype Registry = Registry(
    controllers: map<Template, Controller>,
    ports: map<Controller, int>,
    times: map<Controller, seq<real>>,
    portList: seq<int>)

  /**
   * The first pass over `defs`: a definition with a null template or an
   * already seen template is skipped; otherwise the template is
   * instantiated (the n-th instance created), its output is added to the
   * mixer (whose new input index is the number of inputs it had), and its
   * duration table is built from this definition.
   */
  function Instantiate(defs: seq<ControllerDefinition>): (reg: Registry)
    requires TransitionsInRange(defs)
    ensures |reg.portList| <= |defs|
    decreases |defs|
  {
    if defs == [] then Registry(map[], map[], map[], [])
    else
      var n := |defs| - 1;
      var reg := Instantiate(defs[..n]);
      if !FirstOfTemplate(defs, n) then reg else Register(reg, defs[n])
  }

  /**
   * Registers the template of `d`: the next instance, whose mixer port is
   * the number of ports so far, and its duration table built from `d`.
   */
  function Register(reg: Registry, d: ControllerDefinition): Registry
    requires d.template.Some? && SourcesInRange(d)
  {
    var port := |reg.portList|;
    var c := Controller(port, d.template.value);
    Registry(reg.controllers[c.template := c], reg.ports[c := port], reg.times[c := TimesTable(d)],
             reg.portList + [port])
  }

  /** A template has a controller exactly when some definition names it. */
  lemma {:induction false} InstantiateKeys(defs: seq<ControllerDefinition>)
    requires TransitionsInRange(defs)
    ensures forall t :: t in Instantiate(defs).controllers <==>
                        exists i :: 0 <= i < |defs| && defs[i].template == Some(t)
    decreases |defs|
  {
    if defs != [] {
      var n := |defs| - 1;
      InstantiateKeys(defs[..n]);
      assert forall i :: 0 <= i < n ==> defs[..n][i] == defs[i];
    }
  }

  /** The lookups the second pass makes always succeed, and each table is full-length. */
  ghost predicate Consistent(reg: Registry)
  {
    && (forall c :: c in reg.times ==> |reg.times[c]| == NumStates)
    && forall t :: t in reg.controllers ==>
      var c := reg.controllers[t];
      && c.template == t
      && c in reg.ports && reg.ports[c] == c.serial
      && c in reg.times && |reg.times[c]| == NumStates
      && c.serial < |reg.portList|
  }

  /** A definition that is the first to name its template finds that template not yet registered. */
  lemma NewTemplateNotRegistered(defs: seq<ControllerDefinition>)
    requires TransitionsInRange(defs) && |defs| > 0
    ensures FirstOfTemplate(defs, |defs| - 1) ==>
              defs[|defs| - 1].template.value !in Instantiate(defs[..|defs| - 1]).controllers
  {
    var n := |defs| - 1;
    InstantiateKeys(defs[..n]);
  }

  /** Duration tables of a prefix are in range whenever those of the whole list are. */
  lemma TransitionsInRangePrefix(defs: seq<ControllerDefinition>, n: int)
    requires TransitionsInRange(defs) && 0 <= n <= |defs|
    ensures TransitionsInRange(defs[..n])
  {
    assert forall j :: 0 <= j < n ==> FirstOfTemplate(defs[..n], j) == FirstOfTemplate(defs, j);
  }

  /** The first pass's last step: the last definition registers its template exactly when it is new. */
  lemma InstantiateLast(defs: seq<ControllerDefinition>)
    requires TransitionsInRange(defs) && |defs| > 0
    ensures TransitionsInRange(defs[..|defs| - 1])
    ensures var last := defs[|defs| - 1];
            var prev := Instantiate(defs[..|defs| - 1]);
            && (last.template.Some? && last.template.value !in prev.controllers ==> SourcesInRange(last))
            && Instantiate(defs) ==
                 if last.template.Some? && last.template.value !in prev.controllers
                 then Register(prev, last) else prev
  {
    var n := |defs| - 1;
    TransitionsInRangePrefix(defs, n);
    InstantiateKeys(defs[..n]);
    if defs[n].template.Some? && defs[n].template.value in Instantiate(defs[..n]).controllers {
      var j :| 0 <= j < n && defs[..n][j].template == defs[n].template;
      assert defs[j].template == defs[n].template;
    } else if defs[n].template.Some? {
      forall j | 0 <= j < n
        ensures defs[j].template != defs[n].template
      {
        assert defs[..n][j] == defs[j];
      }
    }
  }

  /** One step of the first pass, stated on prefixes: a template not yet registered gets the next controller. */
  lemma InstantiatePrefixStep(defs: seq<ControllerDefinition>, i: int)
    requires TransitionsInRange(defs) && 0 <= i < |defs|
    ensures TransitionsInRange(defs[..i]) && TransitionsInRange(defs[..i + 1])
    ensures defs[i].template.Some? && defs[i].template.value !in Instantiate(defs[..i]).controllers ==>
              SourcesInRange(defs[i])
    ensures Instantiate(defs[..i + 1]) ==
              if defs[i].template.Some? && defs[i].template.value !in Instantiate(defs[..i]).controllers
              then Register(Instantiate(defs[..i]), defs[i])
              else Instantiate(defs[..i])
  {
    TransitionsInRangePrefix(defs, i + 1);
    var prefix := defs[..i + 1];
    assert prefix[..i] == defs[..i];
    InstantiateLast(prefix);
  }

  /** The registry's lookups are consistent and its ports are 0, 1, 2, ... in creation order. */
  lemma {:induction false} InstantiateConsistent(defs: seq<ControllerDefinition>)
    requires TransitionsInRange(defs)
    ensures Consistent(Instantiate(defs))
    ensures forall k :: 0 <= k < |Instantiate(defs).portList| ==> Instantiate(defs).portList[k] == k
    decreases |defs|
  {
    if defs != [] {
      var n := |defs| - 1;
      InstantiateConsistent(defs[..n]);
      NewTemplateNotRegistered(defs);
    }
  }

  /**
   * Exactly one controller and one mixer port per distinct template: the
   * controllers of distinct templates have distinct serials (so are
   * distinct instances), every mixer port belongs to one of them, and there
   * are as many ports as controllers.
   */
  lemma {:induction false} InstantiateOnePerTemplate(defs: seq<ControllerDefinition>)
    requires TransitionsInRange(defs)
    ensures var reg := Instantiate(defs);
            forall t1, t2 :: t1 in reg.controllers && t2 in reg.controllers && t1 != t2 ==>
              reg.controllers[t1].serial != reg.controllers[t2].serial
    ensures var reg := Instantiate(defs);
            forall k :: 0 <= k < |reg.portList| ==>
              exists t :: t in reg.controllers && reg.controllers[t].serial == reg.portList[k]
    ensures |Instantiate(defs).controllers| == |Instantiate(defs).portList|
    decreases |defs|
  {
    InstantiateConsistent(defs);
    if defs != [] {
      var n := |defs| - 1;
      var prev := Instantiate(defs[..n]);
      InstantiateOnePerTemplate(defs[..n]);
      InstantiateConsistent(defs[..n]);
      NewTemplateNotRegistered(defs);
      if FirstOfTemplate(defs, n) {
        var t := defs[n].template.value;
        var reg := Instantiate(defs);
        assert reg.controllers == prev.controllers[t := Controller(|prev.portList|, t)];
        assert reg.portList == prev.portList + [|prev.portList|];
        forall k | 0 <= k < |reg.portList|
          ensures exists t' :: t' in reg.controllers && reg.controllers[t'].serial == reg.portList[k]
        {
          if k < |prev.portList| {
            var t' :| t' in prev.controllers && prev.controllers[t'].serial == prev.portList[k];
            assert reg.controllers[t'] == prev.controllers[t'] && reg.portList[k] == prev.portList[k];
          } else {
            assert reg.controllers[t].serial == reg.portList[k];
          }
        }
      }
    }
  }

  /** The duration table of a template's controller is the one built from its FIRST definition. */
  lemma {:induction false} InstantiateTimes(defs: seq<ControllerDefinition>, i: int)
    requires TransitionsInRange(defs) && 0 <= i < |defs| && FirstOfTemplate(defs, i)
    ensures var reg := Instantiate(defs);
            var t := defs[i].template.value;
            && t in reg.controllers && reg.controllers[t] in reg.times
            && reg.times[reg.controllers[t]] == TimesTable(defs[i])
    decreases |defs|
  {
    var n := |defs| - 1;
    InstantiateConsistent(defs[..n]);
    NewTemplateNotRegistered(defs);
    if i < n {
      assert FirstOfTemplate(defs[..n], i);
      InstantiateTimes(defs[..n], i);
    }
  }

  // ---------------------------------------------------------------------
  // Second pass of construction: one slot per animation state
  // ---------------------------------------------------------------------

  /**
   * A slot of the state table (AnimationControllerEntry): unbound, or the
   * controller, whether it has a per-state logic updater, its mixer port
   * and its duration table indexed by previous state.
   */
  datatype Entry =
    | Unbound
    | Bound(controller: Controller, updater: bool, port: int, transitionTimes: seq<real>)

  /** The slot contents for a controller: all looked up by that controller. */
  function Binding(c: Controller, reg: Registry): (e: Entry)
    requires c in reg.ports && c in reg.times
    ensures e.Bound? && e.controller == c
  {
    Bound(c, c.template.implementsGraphState, reg.ports[c], reg.times[c])
  }

  /** What the second pass needs: real states, and a registered template wherever a slot is filled. */
  ghost predicate SlotsDefined(defs: seq<ControllerDefinition>, reg: Registry)
  {
    && (forall i :: 0 <= i < |defs| ==> defs[i].animationState < NumStates)
    && Consistent(reg)
    && (forall i {:trigger FirstOfState(defs, i)} :: 0 <= i < |defs| && FirstOfState(defs, i) ==>
          defs[i].template.Some? && defs[i].template.value in reg.controllers)
  }

  /**
   * The second pass over `defs`: a definition whose state slot is already
   * filled is skipped (with a warning); otherwise the slot is bound to the
   * controller of its template.
   */
  function Slots(defs: seq<ControllerDefinition>, reg: Registry): (table: seq<Entry>)
    requires SlotsDefined(defs, reg)
    ensures |table| == NumStates
    decreases |defs|
  {
    if defs == [] then seq(NumStates, _ => Unbound)
    else
      var n := |defs| - 1;
      assert forall j :: 0 <= j < n ==> FirstOfState(defs[..n], j) == FirstOfState(defs, j);
      var table := Slots(defs[..n], reg);
      if FirstOfState(defs, n) then
        table[defs[n].animationState := Binding(reg.controllers[defs[n].template.value], reg)]
      else table
  }

  /** The second pass of a prefix is defined whenever that of the whole list is. */
  lemma SlotsDefinedPrefix(defs: seq<ControllerDefinition>, reg: Registry, n: int)
    requires SlotsDefined(defs, reg) && 0 <= n <= |defs|
    ensures SlotsDefined(defs[..n], reg)
  {
    assert forall j :: 0 <= j < n ==> defs[..n][j] == defs[j];
    assert forall j :: 0 <= j < n ==> FirstOfState(defs[..n], j) == FirstOfState(defs, j);
  }

  /** One step of the second pass: only the slot of the last definition's state can change. */
  lemma SlotsStep(defs: seq<ControllerDefinition>, reg: Registry, s: AnimState)
    requires SlotsDefined(defs, reg) && |defs| > 0 && s < NumStates
    ensures SlotsDefined(defs[..|defs| - 1], reg)
    ensures !(s == defs[|defs| - 1].animationState && FirstOfState(defs, |defs| - 1)) ==>
              Slots(defs, reg)[s] == Slots(defs[..|defs| - 1], reg)[s]
    ensures s == defs[|defs| - 1].animationState && FirstOfState(defs, |defs| - 1) ==>
              Slots(defs, reg)[s].Bound?
  {
    SlotsDefinedPrefix(defs, reg, |defs| - 1);
  }

  /** A filled slot's state is named by some definition. */
  lemma {:induction false} SlotsBoundOnlyIfNamed(defs: seq<ControllerDefinition>, reg: Registry, s: AnimState)
    requires SlotsDefined(defs, reg) && s < NumStates
    requires Slots(defs, reg)[s].Bound?
    ensures exists i :: 0 <= i < |defs| && defs[i].animationState == s
    decreases |defs|
  {
    if defs != [] {
      var n := |defs| - 1;
      SlotsStep(defs, reg, s);
      if defs[n].animationState != s {
        SlotsBoundOnlyIfNamed(defs[..n], reg, s);
        var j :| 0 <= j < n && defs[..n][j].animationState == s;
        assert defs[j].animationState == s;
      }
    }
  }

  /** A state named by some definition has its slot filled. */
  lemma {:induction false} SlotsBoundIfNamed(defs: seq<ControllerDefinition>, reg: Registry, s: AnimState, i: int)
    requires SlotsDefined(defs, reg) && s < NumStates
    requires 0 <= i < |defs| && defs[i].animationState == s
    ensures Slots(defs, reg)[s].Bound?
    decreases |defs|
  {
    var n := |defs| - 1;
    var prefix := defs[..n];
    SlotsStep(defs, reg, s);
    if !(s == defs[n].animationState && FirstOfState(defs, n)) {
      var j := i;
      if i == n {
        j :| 0 <= j < n && defs[j].animationState == s;
      }
      assert prefix[j].animationState == s;
      SlotsBoundIfNamed(prefix, reg, s, j);
    }
  }

  /** A slot is filled exactly when some definition names its state. */
  lemma SlotsBoundIff(defs: seq<ControllerDefinition>, reg: Registry, s: AnimState)
    requires SlotsDefined(defs, reg) && s < NumStates
    ensures Slots(defs, reg)[s].Bound? <==> exists i :: 0 <= i < |defs| && defs[i].animationState == s
  {
    if Slots(defs, reg)[s].Bound? {
      SlotsBoundOnlyIfNamed(defs, reg, s);
    }
    if exists i :: 0 <= i < |defs| && defs[i].animationState == s {
      var i :| 0 <= i < |defs| && defs[i].animationState == s;
      SlotsBoundIfNamed(defs, reg, s, i);
    }
  }

  /** One step of the second pass, stated on prefixes: the slot is bound exactly when it was still empty. */
  lemma SlotsPrefixStep(defs: seq<ControllerDefinition>, reg: Registry, i: int)
    requires SlotsDefined(defs, reg) && 0 <= i < |defs|
    ensures SlotsDefined(defs[..i], reg) && SlotsDefined(defs[..i + 1], reg)
    ensures FirstOfState(defs, i) <==> !Slots(defs[..i], reg)[defs[i].animationState].Bound?
    ensures FirstOfState(defs, i) ==> defs[i].template.Some? && defs[i].template.value in reg.controllers
    ensures Slots(defs[..i + 1], reg) ==
              if FirstOfState(defs, i)
              then Slots(defs[..i], reg)[defs[i].animationState := Binding(reg.controllers[defs[i].template.value], reg)]
              else Slots(defs[..i], reg)
  {
    SlotsDefinedPrefix(defs, reg, i);
    SlotsDefinedPrefix(defs, reg, i + 1);
    var prefix := defs[..i + 1];
    assert prefix[..i] == defs[..i];
    assert FirstOfState(prefix, i) == FirstOfState(defs, i);
    SlotsBoundIff(defs[..i], reg, defs[i].animationState);
    if !FirstOfState(defs, i) {
      var j :| 0 <= j < i && defs[j].animationState == defs[i].animationState;
      assert defs[..i][j].animationState == defs[i].animationState;
    }
  }

  /** First definition wins: a state's slot holds the controller of the first definition naming it. */
  lemma {:induction false} SlotsFirstWins(defs: seq<ControllerDefinition>, reg: Registry, i: int)
    requires SlotsDefined(defs, reg) && 0 <= i < |defs| && FirstOfState(defs, i)
    ensures Slots(defs, reg)[defs[i].animationState] == Binding(reg.controllers[defs[i].template.value], reg)
    decreases |defs|
  {
    var n := |defs| - 1;
    assert forall j :: 0 <= j < n ==> FirstOfState(defs[..n], j) == FirstOfState(defs, j);
    if i < n {
      SlotsFirstWins(defs[..n], reg, i);
    }
  }

  /** A later definition for an already named state leaves the whole table unchanged. */
  lemma LaterDefinitionIgnored(defs: seq<ControllerDefinition>, d: ControllerDefinition, reg: Registry)
    requires SlotsDefined(defs + [d], reg)
    requires exists i :: 0 <= i < |defs| && defs[i].animationState == d.animationState
    ensures SlotsDefined(defs, reg)
    ensures Slots(defs + [d], reg) == Slots(defs, reg)
  {
    var all := defs + [d];
    assert all[..|defs|] == defs;
    assert forall j :: 0 <= j < |defs| ==> FirstOfState(defs, j) == FirstOfState(all, j);
    assert !FirstOfState(all, |defs|);
  }

  /** Every filled slot is the binding of its own controller. */
  lemma {:induction false} SlotsAreBindings(defs: seq<ControllerDefinition>, reg: Registry, s: AnimState)
    requires SlotsDefined(defs, reg) && s < NumStates && Slots(defs, reg)[s].Bound?
    ensures var c := Slots(defs, reg)[s].controller;
            c in reg.ports && c in reg.times && Slots(defs, reg)[s] == Binding(c, reg)
    decreases |defs|
  {
    var n := |defs| - 1;
    SlotsDefinedPrefix(defs, reg, n);
    if FirstOfState(defs, n) && defs[n].animationState == s {
      var t := defs[n].template.value;
      assert Slots(defs, reg)[s] == Binding(reg.controllers[t], reg);
    } else {
      assert Slots(defs, reg)[s] == Slots(defs[..n], reg)[s];
      SlotsAreBindings(defs[..n], reg, s);
    }
  }

  /** States that share a controller share its port, its updater and the very same duration table. */
  lemma SharedControllerSharesEntry(defs: seq<ControllerDefinition>, reg: Registry, s1: AnimState, s2: AnimState)
    requires SlotsDefined(defs, reg) && s1 < NumStates && s2 < NumStates
    requires Slots(defs, reg)[s1].Bound? && Slots(defs, reg)[s2].Bound?
    requires Slots(defs, reg)[s1].controller == Slots(defs, reg)[s2].controller
    ensures Slots(defs, reg)[s1] == Slots(defs, reg)[s2]
  {
    SlotsAreBindings(defs, reg, s1);
    SlotsAreBindings(defs, reg, s2);
  }

  /** Well-formed definitions make every prefix's second pass defined against the full registry. */
  lemma WellFormedSlotsDefined(defs: seq<ControllerDefinition>)
    requires WellFormed(defs)
    ensures forall i :: 0 <= i <= |defs| ==> SlotsDefined(defs[..i], Instantiate(defs))
  {
    InstantiateKeys(defs);
    InstantiateConsistent(defs);
    forall i | 0 <= i <= |defs|
      ensures SlotsDefined(defs[..i], Instantiate(defs))
    {
      assert forall j :: 0 <= j < i ==> defs[..i][j] == defs[j];
      assert forall j :: 0 <= j < i ==> FirstOfState(defs[..i], j) == FirstOfState(defs, j);
    }
  }

  /** The state table that construction builds from well-formed definitions. */
  function StateTable(defs: seq<ControllerDefinition>): (table: seq<Entry>)
    requires WellFormed(defs)
    ensures |table| == NumStates
  {
    WellFormedSlotsDefined(defs);
    assert defs[..|defs|] == defs;
    Slots(defs, Instantiate(defs))
  }

  /**
   * The slot of the state named first by definition `i` holds the
   * controller of that definition's template, whose mixer port is its
   * creation index and whose duration table was built from definition `k`,
   * the first one naming that template, not from definition `i`.
   */
  lemma StateTableEntry(defs: seq<ControllerDefinition>, i: int, k: int)
    requires WellFormed(defs) && 0 <= i < |defs| && FirstOfState(defs, i)
    requires 0 <= k < |defs| && FirstOfTemplate(defs, k) && defs[k].template == defs[i].template
    ensures var e := StateTable(defs)[defs[i].animationState];
            && e.Bound? && e.controller.template == defs[i].template.value
            && e.updater == defs[i].template.value.implementsGraphState
            && e.port == e.controller.serial
            && e.transitionTimes == TimesTable(defs[k])
  {
    WellFormedSlotsDefined(defs);
    assert defs[..|defs|] == defs;
    InstantiateConsistent(defs);
    SlotsFirstWins(defs, Instantiate(defs), i);
    InstantiateTimes(defs, k);
  }

  // ---------------------------------------------------------------------
  // Presentation bookkeeping: current, previous, blend rate
  // ---------------------------------------------------------------------

  /** The controller bound to a state, None for the sentinel and for unfilled slots. */
  function ControllerOf(table: seq<Entry>, s: AnimState): (c: Option<Controller>)
    ensures c.Some? <==> s < |table| && table[s].Bound?
  {
    if s < |table| && table[s].Bound? then Some(table[s].controller) else None
  }

  /** The current state, the tick it was entered at, and the state blend durations are looked up from. */
  datatype Presentation = Presentation(current: AnimState, tick: int, previous: AnimState)

  /** Current and previous are either both still the sentinel or both real states. */
  predicate Coherent(p: Presentation)
  {
    (p.current == NumStates) == (p.previous == NumStates)
  }

  /** The bookkeeping before a presentation update: nothing has been presented yet. */
  const Initial := Presentation(NumStates, 0, NumStates)

  /**
   * One presentation step with classified state `animState` entered at
   * `tick`. Current and tick always end up as the new pair (they are left
   * alone when already equal to it). The previous state only moves when
   * the controller changes; it then becomes the old current state, or the
   * new one if no previous state was recorded yet, and it never returns to
   * the sentinel.
   */
  function Advance(table: seq<Entry>, p: Presentation, animState: AnimState, tick: int): (r: Presentation)
    ensures r.current == animState && r.tick == tick
    ensures animState == p.current && tick == p.tick ==> r == p
    ensures ControllerOf(table, animState) == ControllerOf(table, p.current) ==> r.previous == p.previous
    ensures ControllerOf(table, animState) != ControllerOf(table, p.current) && p.previous != NumStates ==>
              r.previous == p.current
    ensures |table| == NumStates && Coherent(p) && p.previous == NumStates && ControllerOf(table, animState).Some? ==>
              r.previous == animState
    ensures Coherent(p) && p.previous != NumStates && animState < NumStates ==>
              Coherent(r) && r.previous != NumStates
  {
    if animState != p.current || tick != p.tick then
      var prevController := ControllerOf(table, p.current);
      var newController := ControllerOf(table, animState);
      var previous :=
        if newController != prevController then
          (if p.previous == NumStates then animState else p.current)
        else p.previous;
      Presentation(animState, tick, previous)
    else p
  }

  /** A sequence of presentation steps, each with a classified state and its tick. */
  function Replay(table: seq<Entry>, p: Presentation, obs: seq<(AnimState, int)>): Presentation
    decreases |obs|
  {
    if obs == [] then p
    else
      var n := |obs| - 1;
      Advance(table, Replay(table, p, obs[..n]), obs[n].0, obs[n].1)
  }

  /** Once started, a replay stays coherent and keeps a real previous state. */
  lemma {:induction false} ReplayStaysStarted(table: seq<Entry>, p: Presentation, obs: seq<(AnimState, int)>)
    requires Coherent(p) && p.previous != NumStates
    requires forall j :: 0 <= j < |obs| ==> obs[j].0 < NumStates
    ensures Coherent(Replay(table, p, obs)) && Replay(table, p, obs).previous != NumStates
    decreases |obs|
  {
    if obs != [] {
      ReplayStaysStarted(table, p, obs[..|obs| - 1]);
    }
  }

  /**
   * Chained transitions: after a replay, the previous state is the state
   * that was current just before the LAST step that changed controller;
   * later steps between states sharing a controller do not move it.
   */
  lemma {:induction false} PreviousIsOriginOfLastSwitch(
    table: seq<Entry>, p: Presentation, obs: seq<(AnimState, int)>, k: int)
    requires Coherent(p) && p.previous != NumStates
    requires forall j :: 0 <= j < |obs| ==> obs[j].0 < NumStates
    requires 0 <= k < |obs|
    requires ControllerOf(table, if k == 0 then p.current else obs[k - 1].0) != ControllerOf(table, obs[k].0)
    requires forall j :: k < j < |obs| ==> ControllerOf(table, obs[j - 1].0) == ControllerOf(table, obs[j].0)
    ensures Replay(table, p, obs).previous == if k == 0 then p.current else obs[k - 1].0
    decreases |obs|
  {
    var n := |obs| - 1;
    var q := Replay(table, p, obs[..n]);
    ReplayStaysStarted(table, p, obs[..n]);
    if n > 0 {
      assert q.current == obs[n - 1].0;
    }
    if k < n {
      PreviousIsOriginOfLastSwitch(table, p, obs[..n], k);
    }
  }

  /**
   * The blend rate towards the current state. The crossfade reaches full
   * weight after exactly `duration` when the duration is positive, and in
   * exactly one tick of `deltaTime` otherwise; 1/0 in floating point is an
   * unbounded rate.
   */
  datatype BlendRate = PerSecond(rate: real) | Unbounded

  function BlendRateFor(duration: real, deltaTime: real): (r: BlendRate)
    ensures duration > 0.0 ==> r.PerSecond? && r.rate > 0.0 && r.rate * duration == 1.0
    ensures duration <= 0.0 ==> (r.Unbounded? <==> deltaTime == 0.0)
    ensures duration <= 0.0 && r.PerSecond? ==> r.rate * deltaTime == 1.0
  {
    if duration > 0.0 then PerSecond(1.0 / duration)
    else if deltaTime == 0.0 then Unbounded
    else PerSecond(1.0 / deltaTime)
  }

  // ---------------------------------------------------------------------
  // Calls made into the sub-controllers
  // ---------------------------------------------------------------------

  /** The slots whose presentation update runs: filled, with a port of positive mixer weight. */
  function WeightedControllers(table: seq<Entry>, weighted: set<int>): seq<Controller>
    decreases |table|
  {
    if table == [] then []
    else
      var n := |table| - 1;
      WeightedControllers(table[..n], weighted) +
        (if table[n].Bound? && table[n].port in weighted then [table[n].controller] else [])
  }

  /** The controller of every slot, in slot order. */
  function SlotControllers(table: seq<Entry>): seq<Controller>
    requires forall i :: 0 <= i < |table| ==> table[i].Bound?
    decreases |table|
  {
    if table == [] then []
    else
      var n := |table| - 1;
      SlotControllers(table[..n]) + [table[n].controller]
  }

  /** The slots bound to `c` with a port in `weighted`. */
  function WeightedSlotsOf(table: seq<Entry>, c: Controller, weighted: set<int>): set<int>
  {
    set i | 0 <= i < |table| && table[i].Bound? && table[i].controller == c && table[i].port in weighted
  }

  /** The slots bound to `c`. */
  function SlotsOf(table: seq<Entry>, c: Controller): set<int>
  {
    set i | 0 <= i < |table| && table[i].Bound? && table[i].controller == c
  }

  /** Extending the table by one slot adds at most that slot to the weighted slots of `c`. */
  lemma WeightedSlotsOfSnoc(table: seq<Entry>, c: Controller, weighted: set<int>)
    requires |table| > 0
    ensures var n := |table| - 1;
            WeightedSlotsOf(table, c, weighted) ==
              WeightedSlotsOf(table[..n], c, weighted) +
              (if table[n].Bound? && table[n].controller == c && table[n].port in weighted then {n} else {})
  {
    var n := |table| - 1;
    assert forall i :: 0 <= i < n ==> table[..n][i] == table[i];
  }

  /** Extending the table by one slot adds at most that slot to the slots of `c`. */
  lemma SlotsOfSnoc(table: seq<Entry>, c: Controller)
    requires |table| > 0
    ensures var n := |table| - 1;
            SlotsOf(table, c) == SlotsOf(table[..n], c) + (if table[n].Bound? && table[n].controller == c then {n} else {})
  {
    var n := |table| - 1;
    assert forall i :: 0 <= i < n ==> table[..n][i] == table[i];
  }

  /**
   * A controller's presentation update runs once per weighted slot bound to
   * it, so a controller shared by k such slots is updated k times.
   */
  lemma {:induction false} WeightedCallCount(table: seq<Entry>, weighted: set<int>, c: Controller)
    ensures multiset(WeightedControllers(table, weighted))[c] == |WeightedSlotsOf(table, c, weighted)|
    decreases |table|
  {
    if table == [] {
      assert WeightedSlotsOf(table, c, weighted) == {};
    } else {
      var n := |table| - 1;
      WeightedCallCount(table[..n], weighted, c);
      WeightedSlotsOfSnoc(table, c, weighted);
      assert n !in WeightedSlotsOf(table[..n], c, weighted);
    }
  }

  /**
   * Shutting down goes slot by slot, so a controller is shut down once per
   * slot bound to it: k times when k states share it.
   */
  lemma {:induction false} ShutdownCallCount(table: seq<Entry>, c: Controller)
    requires forall i :: 0 <= i < |table| ==> table[i].Bound?
    ensures |SlotControllers(table)| == |table|
    ensures multiset(SlotControllers(table))[c] == |SlotsOf(table, c)|
    decreases |table|
  {
    if table == [] {
      assert SlotsOf(table, c) == {};
    } else {
      var n := |table| - 1;
      ShutdownCallCount(table[..n], c);
      SlotsOfSnoc(table, c);
      assert n !in SlotsOf(table[..n], c);
    }
  }

  // ---------------------------------------------------------------------
  // Construction, step by step
  // ---------------------------------------------------------------------

  /** Builds a definition's duration table in place: the default everywhere, then each custom transition in order. */
  method BuildTransitionTimes(def: ControllerDefinition) returns (table: seq<real>)
    requires SourcesInRange(def)
    ensures table == TimesTable(def)
  {
    var times := new real[NumStates];
    for i := 0 to NumStates
      invariant forall j :: 0 <= j < i ==> times[j] == def.transitionTime
    {
      times[i] := def.transitionTime;
    }
    assert times[..] == DefaultTimes(def.transitionTime);
    for i := 0 to |def.customTransitions|
      invariant times[..] == ApplyOverrides(DefaultTimes(def.transitionTime), def.customTransitions[..i])
    {
      assert def.customTransitions[..i + 1][..i] == def.customTransitions[..i];
      var sourceStateIndex := def.customTransitions[i].sourceState;
      times[sourceStateIndex] := def.customTransitions[i].transitionTime;
    }
    assert def.customTransitions[..|def.customTransitions|] == def.customTransitions;
    table := times[..];
  }

  /**
   * The first pass of construction: instantiates each distinct non-null
   * template once, adds its output to the mixer and records its duration table.
   */
  method InstantiateControllers(defs: seq<ControllerDefinition>)
    returns (controllers: map<Template, Controller>, controllerPorts: map<Controller, int>,
             transitionTimes: map<Controller, seq<real>>, ports: seq<int>)
    requires TransitionsInRange(defs)
    ensures Registry(controllers, controllerPorts, transitionTimes, ports) == Instantiate(defs)
  {
    controllers, controllerPorts, transitionTimes, ports := map[], map[], map[], [];
    for i := 0 to |defs|
      invariant Registry(controllers, controllerPorts, transitionTimes, ports) == Instantiate(defs[..i])
    {
      InstantiatePrefixStep(defs, i);
      var def := defs[i];
      if def.template.None? {
        continue;
      }
      var template := def.template.value;
      if template in controllers {
        continue;
      }
      // The factory creates the next instance; the mixer's new input index is its input count.
      var controller := Controller(|ports|, template);
      controllers := controllers[template := controller];
      var port := |ports|;
      controllerPorts := controllerPorts[controller := port];
      ports := ports + [port];
      var times := BuildTransitionTimes(def);
      transitionTimes := transitionTimes[controller := times];
    }
    assert defs[..|defs|] == defs;
  }

  /**
   * The second pass of construction: binds each state to the controller of
   * the first definition naming it; later definitions for a filled slot
   * are skipped.
   */
  method BindStates(defs: seq<ControllerDefinition>, controllers: map<Template, Controller>,
                    controllerPorts: map<Controller, int>, transitionTimes: map<Controller, seq<real>>)
    returns (slots: array<Entry>)
    requires WellFormed(defs)
    requires Registry(controllers, controllerPorts, transitionTimes, Instantiate(defs).portList) == Instantiate(defs)
    ensures fresh(slots) && slots[..] == StateTable(defs)
    ensures forall s :: 0 <= s < slots.Length && slots[s].Bound? ==> |slots[s].transitionTimes| == NumStates
  {
    ghost var reg := Instantiate(defs);
    WellFormedSlotsDefined(defs);
    InstantiateKeys(defs);
    slots := new Entry[NumStates](_ => Unbound);
    assert slots[..] == Slots(defs[..0], reg);
    for i := 0 to |defs|
      invariant slots[..] == Slots(defs[..i], reg)
    {
      SlotsPrefixStep(defs, reg, i);
      var def := defs[i];
      var animState := def.animationState;
      if slots[animState].Bound? {
        // The source logs "Animation state already registered"; the warning is not modelled.
        continue;
      }
      var controller := controllers[def.template.value];
      slots[animState] := Bound(controller, controller.template.implementsGraphState,
                                controllerPorts[controller], transitionTimes[controller]);
    }
    assert defs[..|defs|] == defs;
    forall s | 0 <= s < NumStates && slots[s].Bound?
      ensures |slots[s].transitionTimes| == NumStates
    {
      SlotsAreBindings(defs, reg, s);
    }
  }

  // ---------------------------------------------------------------------
  // The runtime instance
  // ---------------------------------------------------------------------

  /**
   * The runtime state selector of one character. The calls it makes into
   * its sub-controllers are recorded, in order, in `logicCalls` (per-state
   * logic update with its first-update flag), `presentationCalls` and
   * `shutdownCalls`.
   */
  class Instance {
    /** One slot per real animation state (animStates). */
    const animStates: array<Entry>
    /** The mixer ports handed to the crossfade, in creation order. */
    const stateTransitionPorts: seq<int>

    var lastAnimState: AnimState
    var currentAnimationState: AnimState
    var currentAnimationStateTick: int
    var previousAnimationState: AnimState

    var logicCalls: seq<(Controller, bool)>
    var presentationCalls: seq<Controller>
    var shutdownCalls: seq<Controller>

    ghost predicate Valid()
      reads this, animStates
    {
      && animStates.Length == NumStates
      && (forall s :: 0 <= s < NumStates && animStates[s].Bound? ==> |animStates[s].transitionTimes| == NumStates)
      && Coherent(Presentation(currentAnimationState, currentAnimationStateTick, previousAnimationState))
      && (currentAnimationState < NumStates ==> animStates[currentAnimationState].Bound?)
    }

    /** The presentation bookkeeping as a value. */
    function PresentationState(): Presentation
      reads this
    {
      Presentation(currentAnimationState, currentAnimationStateTick, previousAnimationState)
    }

    /**
     * Builds the instance from the settings' definitions: first one
     * controller, mixer port and duration table per distinct template,
     * then one slot per named state, first definition first.
     */
    constructor (defs: seq<ControllerDefinition>)
      requires WellFormed(defs)
      ensures Valid() && fresh(animStates)
      ensures animStates[..] == StateTable(defs)
      ensures stateTransitionPorts == Instantiate(defs).portList
      ensures lastAnimState == NumStates && PresentationState() == Initial
      ensures logicCalls == [] && presentationCalls == [] && shutdownCalls == []
    {
      var controllers, controllerPorts, transitionTimes, ports := InstantiateControllers(defs);
      var slots := BindStates(defs, controllers, controllerPorts, transitionTimes);
      animStates := slots;
      stateTransitionPorts := ports;
      lastAnimState := NumStates;
      currentAnimationState := NumStates;
      currentAnimationStateTick := 0;
      previousAnimationState := NumStates;
      logicCalls := [];
      presentationCalls := [];
      shutdownCalls := [];
    }

    /** Shuts down the controller of every slot, slot by slot; every slot must be filled. */
    method Shutdown()
      requires Valid()
      requires forall s :: 0 <= s < animStates.Length ==> animStates[s].Bound?
      modifies this`shutdownCalls
      ensures shutdownCalls == old(shutdownCalls) + SlotControllers(animStates[..])
    {
      for i := 0 to animStates.Length
        invariant shutdownCalls == old(shutdownCalls) + SlotControllers(animStates[..i])
      {
        assert animStates[..i + 1][..i] == animStates[..i];
        shutdownCalls := shutdownCalls + [animStates[i].controller];
      }
      assert animStates[..animStates.Length] == animStates[..];
    }

    /**
     * The logic update: classify the snapshot, flag a first update when the
     * classification differs from the last one seen, remember it, and run
     * the per-state logic update of its controller if it has one.
     */
    method UpdateGraphLogic(state: Locomotion.CharAnimState) returns (firstUpdate: bool)
      requires Valid()
      modifies this`lastAnimState, this`logicCalls
      ensures Valid()
      ensures lastAnimState == GetAnimState(state.charLocoState)
      ensures firstUpdate <==> lastAnimState != old(lastAnimState)
      ensures old(lastAnimState) == NumStates ==> firstUpdate
      ensures var e := animStates[lastAnimState];
              logicCalls == old(logicCalls) + (if e.Bound? && e.updater then [(e.controller, firstUpdate)] else [])
    {
      var animState := GetAnimState(state.charLocoState);
      firstUpdate := animState != lastAnimState;
      lastAnimState := animState;

      if animStates[animState].Bound? && animStates[animState].updater {
        logicCalls := logicCalls + [(animStates[animState].controller, firstUpdate)];
      }
    }

    /**
     * The presentation update: move the current/previous bookkeeping one
     * step, look up the blend duration from the previous state in the
     * current state's table and turn it into a blend rate towards the
     * current state's port, then run the presentation update of every
     * filled slot whose port has positive mixer weight (`weightedPorts`,
     * the ports the crossfade leaves with weight above zero).
     */
    method ApplyPresentationState(state: Locomotion.CharAnimState, deltaTime: real, weightedPorts: set<int>)
      returns (duration: real, rate: BlendRate, targetPort: int)
      requires Valid()
      requires animStates[GetAnimState(state.charLocoState)].Bound?
      modifies this`currentAnimationState, this`currentAnimationStateTick, this`previousAnimationState,
               this`presentationCalls
      ensures Valid()
      ensures PresentationState() ==
                Advance(animStates[..], old(PresentationState()), GetAnimState(state.charLocoState), state.charLocoTick)
      ensures currentAnimationState < NumStates && previousAnimationState < NumStates
      ensures duration == animStates[currentAnimationState].transitionTimes[previousAnimationState]
      ensures rate == BlendRateFor(duration, deltaTime)
      ensures targetPort == animStates[currentAnimationState].port
      ensures presentationCalls == old(presentationCalls) + WeightedControllers(animStates[..], weightedPorts)
    {
      AdvancePresentation(GetAnimState(state.charLocoState), state.charLocoTick);
      duration := animStates[currentAnimationState].transitionTimes[previousAnimationState];
      rate := if duration > 0.0 then PerSecond(1.0 / duration)
              else if deltaTime == 0.0 then Unbounded
              else PerSecond(1.0 / deltaTime);
      targetPort := animStates[currentAnimationState].port;
      UpdateWeightedControllers(weightedPorts);
    }

    /**
     * The presentation bookkeeping: on a new (state, tick) pair, record it,
     * and when the controller changes remember where the transition came
     * from (the new state itself on the very first transition).
     */
    method AdvancePresentation(animState: AnimState, tick: int)
      requires Valid() && animState < NumStates && animStates[animState].Bound?
      modifies this`currentAnimationState, this`currentAnimationStateTick, this`previousAnimationState
      ensures Valid()
      ensures PresentationState() == Advance(animStates[..], old(PresentationState()), animState, tick)
      ensures previousAnimationState < NumStates
    {
      if animState != currentAnimationState || tick != currentAnimationStateTick {
        var previousState := currentAnimationState;
        var prevController := if previousState < animStates.Length && animStates[previousState].Bound?
                              then Some(animStates[previousState].controller) else None;
        currentAnimationState := animState;
        currentAnimationStateTick := tick;
        var newController := if animStates[currentAnimationState].Bound?
                             then Some(animStates[currentAnimationState].controller) else None;
        if newController != prevController {
          previousAnimationState :=
            if previousAnimationState == NumStates then currentAnimationState else previousState;
        }
      }
    }

    /** Runs the presentation update of every slot whose mixer port carries weight, slot by slot. */
    method UpdateWeightedControllers(weightedPorts: set<int>)
      requires Valid()
      modifies this`presentationCalls
      ensures presentationCalls == old(presentationCalls) + WeightedControllers(animStates[..], weightedPorts)
    {
      for i := 0 to NumStates
        invariant presentationCalls == old(presentationCalls) + WeightedControllers(animStates[..i], weightedPorts)
      {
        assert animStates[..i + 1][..i] == animStates[..i];
        if animStates[i].Bound? && animStates[i].port in weightedPorts {
          presentationCalls := presentationCalls + [animStates[i].controller];
        }
      }
      assert animStates[..NumStates] == animStates[..];
    }
  }
}
