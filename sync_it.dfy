/** The public surface of index.js: context selection, `wrap`, the per-name wrappers and the
    reversible global replacement (`replace` / `restore`) over the module-level snapshot. */
module SyncIt {
  import opened JsValues
  import opened Wrapping

  datatype Option<T> = None | Some(value: T)

  /** The recognised block function names, in the order index.js visits them. */
  const BlockFunctionNames: seq<string> :=
    ["after", "afterAll", "afterEach", "before", "beforeAll", "beforeEach", "it"]

  /** The exceptions index.js throws: a plain `Error` or a `TypeError`, with their messages. */
  datatype Error = PlainError(message: string) | TypeError(message: string)

  const NoRootScope: Error := PlainError("unable to identify root scope")
  const NotWrappable: Error := TypeError("expected an object or function to wrap")
  const NotAFunction: Error := TypeError("expected a function to wrap")

  datatype Result<T> = Ok(value: T) | Err(error: Error)

  /** Context selection: the candidates `root`, `global` and `window` are tried in that order and
      `defined[k]` says whether candidate k exists. The result is the index of the first one that
      exists, or |defined| (the private fallback object) when none does. */
  function FirstDefined(defined: seq<bool>): (k: nat)
    ensures k <= |defined|
    ensures k < |defined| ==> defined[k]
    ensures forall j :: 0 <= j < k ==> !defined[j]
  {
    if defined == [] || defined[0] then 0 else 1 + FirstDefined(defined[1..])
  }

  /** `m[name]`, where a missing property reads as undefined. */
  function Slot(m: map<string, Value>, name: string): (v: Value) {
    if name in m then m[name] else Undefined
  }

  /** The recognised names whose ambient value is a function, each with that value. */
  function Visible(context: map<string, Value>): (visible: map<string, Value>) {
    map name | name in BlockFunctionNames && name in context && context[name].Fn? :: context[name]
  }

  /** `out` holds a new wrapper for every function-valued entry of `props` and nothing else; the
      wrappers' references lie in [lo, hi) and are pairwise distinct. */
  ghost predicate WrapsFunctions(out: map<string, Value>, props: map<string, Value>, lo: Ref, hi: Ref) {
    && out.Keys == (set k | k in props && props[k].Fn?)
    && (forall k :: k in out ==>
          k in props && props[k].Fn? && out[k].Fn? && out[k] == WrapFn(props[k], out[k].id) && lo <= out[k].id < hi)
    && (forall a, b :: a in out && b in out && a != b ==> out[a].id != out[b].id)
  }

  /** The `for (name in input)` loop of wrap, visiting the keys in some order; `first` is the
      next free reference and `next` the one after the last wrapper made. */
  method WrapEach(props: map<string, Value>, first: Ref) returns (out: map<string, Value>, next: Ref)
    ensures first <= next
    ensures WrapsFunctions(out, props, first, next)
  {
    out, next := map[], first;
    var todo := props.Keys;
    while todo != {}
      invariant todo <= props.Keys
      invariant first <= next
      invariant WrapsFunctions(out, props - todo, first, next)
      decreases todo
    {
      var name :| name in todo;
      var value := props[name];
      if value.Fn? {
        out := out[name := WrapFn(value, next)];
        next := next + 1;
      }
      todo := todo - {name};
    }
    assert props - todo == props;
  }

  /** Which loop of replace runs: the one for an absent snapshot or the one for a present one. */
  datatype Mode = Install | Refresh

  /** What replace updates: the ambient slots, the snapshot's entries and the next free reference. */
  datatype Registry = Registry(context: map<string, Value>, saved: map<string, Value>, nextId: Ref)

  /** Whether an iteration of replace's loop rewrites the slot `name`: it holds a function and,
      with a snapshot present, one that differs from the recorded value. */
  predicate Touches(mode: Mode, s: Registry, name: string) {
    Slot(s.context, name).Fn? && (mode == Install || Slot(s.saved, name) != Slot(s.context, name))
  }

  /** One iteration of a replace loop: record the slot's value and put a new wrapper in its place. */
  function Step(mode: Mode, s: Registry, name: string): (r: Registry) {
    if Touches(mode, s, name) then
      var value := s.context[name];
      Registry(s.context[name := WrapFn(value, s.nextId)], s.saved[name := value], s.nextId + 1)
    else s
  }

  /** A replace loop over `names`, in order. */
  function Sweep(mode: Mode, names: seq<string>, s: Registry): (r: Registry)
    decreases |names|
  {
    if names == [] then s
    else Step(mode, Sweep(mode, names[..|names| - 1], s), names[|names| - 1])
  }

  ghost predicate Distinct(names: seq<string>) {
    forall i, j :: 0 <= i < j < |names| ==> names[i] != names[j]
  }

  lemma NamesDistinct()
    ensures Distinct(BlockFunctionNames)
  {
  }

  /** `w` is a wrapper around `v` made with a reference in [lo, hi). */
  ghost predicate Rewraps(w: Value, v: Value, lo: Ref, hi: Ref) {
    v.Fn? && w.Fn? && w == WrapFn(v, w.id) && lo <= w.id < hi
  }

  /** `r` is what a replace loop over `names` makes of `s`: every touched name gets its value
      recorded and a new wrapper around it in its slot, each wrapper with its own new reference;
      every other slot and snapshot entry stays as it was. */
  ghost predicate Swept(mode: Mode, names: seq<string>, s: Registry, r: Registry) {
    && s.nextId <= r.nextId
    && r.context.Keys == s.context.Keys
    && r.saved.Keys == s.saved.Keys + (set n | n in names && Touches(mode, s, n))
    && (forall n :: n in names && Touches(mode, s, n) ==>
          n in r.saved && n in r.context &&
          r.saved[n] == s.context[n] && Rewraps(r.context[n], s.context[n], s.nextId, r.nextId))
    && (forall n :: !(n in names && Touches(mode, s, n)) ==>
          Slot(r.context, n) == Slot(s.context, n) && Slot(r.saved, n) == Slot(s.saved, n))
    && (forall a, b :: a in names && b in names && a != b && Touches(mode, s, a) && Touches(mode, s, b) ==>
          a in r.context && b in r.context && r.context[a].id != r.context[b].id)
  }

  /** One more iteration, for a name not visited before, keeps Swept. */
  lemma StepSwept(mode: Mode, init: seq<string>, last: string, s: Registry, r: Registry)
    requires Swept(mode, init, s, r) && last !in init
    ensures Swept(mode, init + [last], s, Step(mode, r, last))
  {
    assert Slot(r.context, last) == Slot(s.context, last) && Slot(r.saved, last) == Slot(s.saved, last);
    if Touches(mode, s, last) {
      StepSweptTouched(mode, init, last, s, r);
    } else {
      assert Step(mode, r, last) == r;
      var names := init + [last];
      assert forall n :: n in names && Touches(mode, s, n) <==> n in init && Touches(mode, s, n);
      assert (set n | n in names && Touches(mode, s, n)) == (set n | n in init && Touches(mode, s, n));
    }
  }

  /** StepSwept for a name the iteration rewrites, one conjunct of Swept at a time. */
  lemma StepSweptTouched(mode: Mode, init: seq<string>, last: string, s: Registry, r: Registry)
    requires Swept(mode, init, s, r) && last !in init
    requires Touches(mode, s, last) && Touches(mode, r, last)
    ensures Swept(mode, init + [last], s, Step(mode, r, last))
  {
    var names := init + [last];
    var v := s.context[last];
    var r' := Registry(r.context[last := WrapFn(v, r.nextId)], r.saved[last := v], r.nextId + 1);
    assert Step(mode, r, last) == r';
    TouchedKeys(mode, init, last, s, r, r');
    TouchedSlots(mode, init, last, s, r, r');
    TouchedIds(mode, init, last, s, r, r');
  }

  lemma TouchedKeys(mode: Mode, init: seq<string>, last: string, s: Registry, r: Registry, r': Registry)
    requires Swept(mode, init, s, r) && last !in init && Touches(mode, s, last)
    requires r' == Registry(r.context[last := WrapFn(s.context[last], r.nextId)], r.saved[last := s.context[last]], r.nextId + 1)
    ensures r'.context.Keys == s.context.Keys
    ensures r'.saved.Keys == s.saved.Keys + (set n | n in init + [last] && Touches(mode, s, n))
  {
    var names := init + [last];
    assert (set n | n in names && Touches(mode, s, n)) == (set n | n in init && Touches(mode, s, n)) + {last};
  }

  lemma TouchedSlots(mode: Mode, init: seq<string>, last: string, s: Registry, r: Registry, r': Registry)
    requires Swept(mode, init, s, r) && last !in init && Touches(mode, s, last)
    requires r' == Registry(r.context[last := WrapFn(s.context[last], r.nextId)], r.saved[last := s.context[last]], r.nextId + 1)
    ensures forall n :: n in init + [last] && Touches(mode, s, n) ==>
              n in r'.saved && n in r'.context &&
              r'.saved[n] == s.context[n] && Rewraps(r'.context[n], s.context[n], s.nextId, r'.nextId)
    ensures forall n :: !(n in init + [last] && Touches(mode, s, n)) ==>
              Slot(r'.context, n) == Slot(s.context, n) && Slot(r'.saved, n) == Slot(s.saved, n)
  {
    assert forall n :: n in init + [last] <==> n in init || n == last;
  }

  lemma TouchedIds(mode: Mode, init: seq<string>, last: string, s: Registry, r: Registry, r': Registry)
    requires Swept(mode, init, s, r) && last !in init && Touches(mode, s, last)
    requires r' == Registry(r.context[last := WrapFn(s.context[last], r.nextId)], r.saved[last := s.context[last]], r.nextId + 1)
    ensures forall a, b :: a in init + [last] && b in init + [last] && a != b && Touches(mode, s, a) && Touches(mode, s, b) ==>
              a in r'.context && b in r'.context && r'.context[a].id != r'.context[b].id
  {
    assert forall n :: n in init + [last] <==> n in init || n == last;
    forall a | a in init && Touches(mode, s, a)
      ensures r'.context[a].id < r.nextId
    {
      assert Rewraps(r.context[a], s.context[a], s.nextId, r.nextId);
    }
  }

  /** What a replace loop over distinct names does (see Swept). */
  lemma {:induction false} SweepEffect(mode: Mode, names: seq<string>, s: Registry)
    requires Distinct(names)
    ensures Swept(mode, names, s, Sweep(mode, names, s))
  {
    if names == [] {
      assert (set n | n in names && Touches(mode, s, n)) == {};
    } else {
      var init, last := names[..|names| - 1], names[|names| - 1];
      assert Distinct(init);
      assert names == init + [last];
      SweepEffect(mode, init, s);
      StepSwept(mode, init, last, s, Sweep(mode, init, s));
    }
  }

  /** A replace from an absent snapshot records exactly the visible block functions and puts a
      wrapper around each in its slot; every other slot is untouched. */
  lemma InstallRecordsVisible(context: map<string, Value>, first: Ref)
    ensures var r := Sweep(Install, BlockFunctionNames, Registry(context, map[], first));
      && r.saved == Visible(context)
      && (forall n :: n in r.saved ==>
            n in context && n in r.context && Rewraps(r.context[n], context[n], first, r.nextId))
      && (forall n :: n !in r.saved ==> Slot(r.context, n) == Slot(context, n))
  {
    var s := Registry(context, map[], first);
    NamesDistinct();
    SweepEffect(Install, BlockFunctionNames, s);
    InstallSwept(BlockFunctionNames, context, first, Sweep(Install, BlockFunctionNames, s));
  }

  /** InstallRecordsVisible for any distinct names, given what the loop did. */
  lemma InstallSwept(names: seq<string>, context: map<string, Value>, first: Ref, r: Registry)
    requires Swept(Install, names, Registry(context, map[], first), r)
    ensures r.saved == map n | n in names && n in context && context[n].Fn? :: context[n]
    ensures forall n :: n in r.saved ==>
              n in context && n in r.context && Rewraps(r.context[n], context[n], first, r.nextId)
    ensures forall n :: n !in r.saved ==> Slot(r.context, n) == Slot(context, n)
  {
    var s := Registry(context, map[], first);
    assert forall n :: Touches(Install, s, n) <==> n in context && context[n].Fn?;
  }

  /** A restore after a replace from an absent snapshot gives every slot back its value from
      before the replace. */
  lemma RestoreUndoesReplace(context: map<string, Value>, first: Ref)
    ensures var r := Sweep(Install, BlockFunctionNames, Registry(context, map[], first));
            r.context + r.saved == context
  {
    NamesDistinct();
    SweepEffect(Install, BlockFunctionNames, Registry(context, map[], first));
  }

  /** A second replace with no change to the slots in between records the first replace's
      wrappers in the snapshot and wraps them once more, so a restore then leaves each visible
      slot holding the first wrapper, not its original function. */
  lemma SecondReplaceRewraps(context: map<string, Value>, first: Ref)
    ensures var r1 := Sweep(Install, BlockFunctionNames, Registry(context, map[], first));
            var r2 := Sweep(Refresh, BlockFunctionNames, r1);
            forall n :: n in Visible(context) ==>
              && n in context && n in r1.context && n in r2.saved && n in r2.context
              && r2.saved[n] == r1.context[n]
              && Rewraps(r2.context[n], r1.context[n], r1.nextId, r2.nextId)
              && (r2.context + r2.saved)[n] == r1.context[n] != context[n]
  {
    var r1 := Sweep(Install, BlockFunctionNames, Registry(context, map[], first));
    NamesDistinct();
    SweepEffect(Install, BlockFunctionNames, Registry(context, map[], first));
    SweepEffect(Refresh, BlockFunctionNames, r1);
  }

  /** The replace loop over the first i + 1 names is one more iteration after the first i. */
  lemma SweepPrefix(mode: Mode, names: seq<string>, i: nat, s: Registry)
    requires i < |names|
    ensures Sweep(mode, names[..i + 1], s) == Step(mode, Sweep(mode, names[..i], s), names[i])
  {
    assert names[..i + 1][..i] == names[..i];
  }

  /** Recording a slot's function and wrapping it with reference `next` keeps every value
      allocated below `next + 1`. */
  lemma RecordBelow(context: map<string, Value>, saved: map<string, Value>, name: string, next: Ref)
    requires AllBelow(context, next) && AllBelow(saved, next) && name in context && context[name].Fn?
    ensures AllBelow(context[name := WrapFn(context[name], next)], next + 1)
    ensures AllBelow(saved[name := context[name]], next + 1)
  {
    AllBelowMono(context, next, next + 1);
    AllBelowMono(saved, next, next + 1);
  }

  /** The module state of index.js: the ambient context's slots, the snapshot `savedBlocks` and
      the allocator of new references. */
  class ModuleState {
    /** Whether one of `root`, `global`, `window` exists; otherwise `context` is the private
        fallback object and every implicit operation fails. */
    const found: bool
    var context: map<string, Value>
    var savedBlocks: Option<map<string, Value>>
    var nextId: Ref

    /** Every value the state holds was allocated before `nextId`, so a reference handed out
        from `nextId` on is new. */
    ghost predicate Valid()
      reads this
    {
      AllBelow(context, nextId) && (savedBlocks.Some? ==> AllBelow(savedBlocks.value, nextId))
    }

    /** Loading index.js with the given candidates defined and the given global slots. */
    constructor (rootDefined: bool, globalDefined: bool, windowDefined: bool,
                 globals: map<string, Value>, firstFree: Ref)
      requires AllBelow(globals, firstFree)
      ensures Valid()
      ensures found <==> FirstDefined([rootDefined, globalDefined, windowDefined]) < 3
      ensures context == (if found then globals else map[])
      ensures savedBlocks == None && nextId == firstFree
    {
      found := FirstDefined([rootDefined, globalDefined, windowDefined]) < 3;
      context := if FirstDefined([rootDefined, globalDefined, windowDefined]) < 3 then globals else map[];
      savedBlocks := None;
      nextId := firstFree;
    }

    /** checkContext: fails with "unable to identify root scope" exactly when no context was found. */
    function CheckContext(): (e: Option<Error>)
      ensures e.Some? <==> !found
      ensures e.Some? ==> e.value == NoRootScope
    {
      if found then None else Some(NoRootScope)
    }

    /** The loop of wrap that collects the visible block functions. */
    method CollectVisible() returns (visible: map<string, Value>)
      ensures visible == Visible(context)
    {
      visible := map[];
      for i := 0 to |BlockFunctionNames|
        invariant forall n :: n in visible <==> n in BlockFunctionNames[..i] && n in context && context[n].Fn?
        invariant forall n :: n in visible ==> n in context && visible[n] == context[n]
      {
        var name := BlockFunctionNames[i];
        if Slot(context, name).Fn? {
          visible := visible[name := context[name]];
        }
      }
      assert BlockFunctionNames[..|BlockFunctionNames|] == BlockFunctionNames;
    }

    /** wrap(input), with `Undefined` standing for both a missing and an undefined argument. */
    method Wrap(input: Value) returns (r: Result<Value>)
      requires Valid() && Below(input, nextId)
      modifies this`nextId
      ensures Valid() && old(nextId) <= nextId
      ensures input.Undefined? && !found ==> r == Err(NoRootScope) && nextId == old(nextId)
      ensures input.Undefined? && found ==>
                r.Ok? && r.value.Obj? && r.value.id == old(nextId) &&
                WrapsFunctions(r.value.props, Visible(context), old(nextId) + 1, nextId)
      ensures input.Obj? ==>
                r.Ok? && r.value.Obj? && r.value.id == old(nextId) &&
                WrapsFunctions(r.value.props, input.props, old(nextId) + 1, nextId)
      ensures input.Fn? ==> r == Ok(WrapFn(input, old(nextId))) && nextId == old(nextId) + 1
      ensures input.Obj? || input.Fn? ==> r.Ok? && !Mentions(input, r.value.id)
      ensures input.Obj? ==> forall k :: k in r.value.props ==> !Mentions(input, r.value.props[k].id)
      ensures !(input.Undefined? || input.Obj? || input.Fn?) ==>
                r == Err(NotWrappable) && nextId == old(nextId)
    {
      var props: map<string, Value>;
      if input.Undefined? {
        if CheckContext().Some? {
          return Err(NoRootScope);
        }
        props := CollectVisible();
      } else if input.Obj? {
        props := input.props;
      } else if input.Fn? {
        BelowExcludes(input, nextId, nextId);
        r := Ok(WrapFn(input, nextId));
        AllBelowMono(context, nextId, nextId + 1);
        if savedBlocks.Some? {
          AllBelowMono(savedBlocks.value, nextId, nextId + 1);
        }
        nextId := nextId + 1;
        return;
      } else {
        return Err(NotWrappable);
      }
      var outId := nextId;
      var out, next := WrapEach(props, nextId + 1);
      BelowExcludes(input, nextId, outId);
      forall k | k in out
        ensures !Mentions(input, out[k].id)
      {
        BelowExcludes(input, nextId, out[k].id);
      }
      AllBelowMono(context, nextId, next);
      if savedBlocks.Some? {
        AllBelowMono(savedBlocks.value, nextId, next);
      }
      nextId := next;
      r := Ok(Obj(outId, out));
    }

    /** The per-name export `exports[name](input)`, with `Undefined` standing for both a missing
        and an undefined argument. */
    method WrapNamed(name: string, input: Value) returns (r: Result<Value>)
      requires name in BlockFunctionNames && Valid() && Below(input, nextId)
      modifies this`nextId
      ensures Valid()
      ensures r.Ok? ==> r.value.Fn? && !Mentions(input, r.value.id) && forall n :: n in context ==> !Mentions(context[n], r.value.id)
      ensures input.Undefined? && !found ==> r == Err(NoRootScope) && nextId == old(nextId)
      ensures !(input.Undefined? && !found) ==>
                var value := if input.Undefined? then Slot(context, name) else input;
                if value.Fn? then r == Ok(WrapFn(value, old(nextId))) && nextId == old(nextId) + 1
                else r == Err(NotAFunction) && nextId == old(nextId)
    {
      var value := input;
      if input.Undefined? {
        if CheckContext().Some? {
          return Err(NoRootScope);
        }
        value := Slot(context, name);
      }
      if value.Fn? {
        BelowExcludes(input, nextId, nextId);
        forall n | n in context
          ensures !Mentions(context[n], nextId)
        {
          BelowExcludes(context[n], nextId, nextId);
        }
        r := Ok(WrapFn(value, nextId));
        AllBelowMono(context, nextId, nextId + 1);
        if savedBlocks.Some? {
          AllBelowMono(savedBlocks.value, nextId, nextId + 1);
        }
        nextId := nextId + 1;
      } else {
        r := Err(NotAFunction);
      }
    }

    /** replace: installs wrappers over the visible block functions, recording what it replaced. */
    method Replace() returns (e: Option<Error>)
      requires Valid()
      modifies this
      ensures Valid()
      ensures !found ==>
                e == Some(NoRootScope) && context == old(context) &&
                savedBlocks == old(savedBlocks) && nextId == old(nextId)
      ensures found ==>
                var mode := if old(savedBlocks).Some? then Refresh else Install;
                var saved := if old(savedBlocks).Some? then old(savedBlocks).value else map[];
                var s := Sweep(mode, BlockFunctionNames, Registry(old(context), saved, old(nextId)));
                e == None && context == s.context && savedBlocks == Some(s.saved) && nextId == s.nextId
    {
      e := CheckContext();
      if e.Some? {
        return;
      }
      var mode := Install;
      if savedBlocks.Some? {
        mode := Refresh;
      } else {
        savedBlocks := Some(map[]);
      }
      ghost var start := Registry(context, savedBlocks.value, nextId);
      for i := 0 to |BlockFunctionNames|
        invariant savedBlocks.Some?
        invariant Registry(context, savedBlocks.value, nextId) == Sweep(mode, BlockFunctionNames[..i], start)
        invariant Valid()
      {
        var name := BlockFunctionNames[i];
        var value := Slot(context, name);
        SweepPrefix(mode, BlockFunctionNames, i, start);
        if value.Fn? && (mode == Install || Slot(savedBlocks.value, name) != value) {
          RecordBelow(context, savedBlocks.value, name, nextId);
          savedBlocks := Some(savedBlocks.value[name := value]);
          context := context[name := WrapFn(value, nextId)];
          nextId := nextId + 1;
        }
      }
      assert BlockFunctionNames[..|BlockFunctionNames|] == BlockFunctionNames;
    }

    /** restore: writes every recorded value back into its slot and drops the snapshot. */
    method Restore() returns (e: Option<Error>)
      requires Valid()
      modifies this`context, this`savedBlocks
      ensures Valid()
      ensures !found ==> e == Some(NoRootScope) && context == old(context) && savedBlocks == old(savedBlocks)
      ensures found && old(savedBlocks).None? ==> e == None && context == old(context) && savedBlocks == None
      ensures found && old(savedBlocks).Some? ==>
                e == None && context == old(context) + old(savedBlocks).value && savedBlocks == None
    {
      e := CheckContext();
      if e.Some? {
        return;
      }
      if savedBlocks.Some? {
        var saved := savedBlocks.value;
        var todo := saved.Keys;
        while todo != {}
          invariant todo <= saved.Keys
          invariant context == old(context) + (saved - todo)
          invariant AllBelow(context, nextId)
          decreases todo
        {
          var name :| name in todo;
          context := context[name := saved[name]];
          todo := todo - {name};
        }
        assert saved - todo == saved;
        savedBlocks := None;
      }
    }
  }
}
