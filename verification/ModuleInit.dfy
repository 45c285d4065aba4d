/** Filling a module from the loaded shards: which parameters a rank broadcasts, in which order, from where. */
module ModuleInit {
  import opened Options
  import opened SafetensorsLoad

  /** A parameter or buffer as the traversal of the sub-modules meets it; shared ones are met several times. */
  datatype Visit = Visit(state: nat, isParam: bool, isMeta: bool)

  datatype InitError = UnknownState | NoNameLeft | UnsavedBuffer | NotLoaded

  /** What the closure keeps: the names still to come of every state, the entries not used yet, and the shared
      states that are created. */
  datatype Init<V> = Init(names: map<nat, seq<string>>, shards: map<string, V>, materialized: set<nat>)

  datatype Broadcast<V> = Broadcast(name: string, state: nat, entry: V)

  datatype Visited<V> = Failed(error: InitError) | Went(next: Init<V>, sent: Option<Broadcast<V>>)

  datatype Outcome<V> = Outcome(sent: seq<Broadcast<V>>, error: Option<InitError>)

  function CreateAndSync<V>(st: Init<V>, name: string, state: nat): Visited<V> {
    if name !in st.shards then Failed(NotLoaded)
    else Went(st.(shards := st.shards - {name}), Some(Broadcast(name, state, st.shards[name])))
  }

  function VisitOne<V>(st: Init<V>, v: Visit, shared: set<nat>): Visited<V> {
    if !v.isMeta then Went(st, None)
    else if v.state !in st.names then Failed(UnknownState)
    else if st.names[v.state] == [] then Failed(NoNameLeft)
    else
      var name := st.names[v.state][0];
      var popped := st.(names := st.names[v.state := st.names[v.state][1..]]);
      if !v.isParam && name !in st.shards then Failed(UnsavedBuffer)
      else if v.state in shared then
        if v.state in st.materialized then Went(popped.(shards := popped.shards - {name}), None)
        else CreateAndSync(popped.(materialized := popped.materialized + {v.state}), name, v.state)
      else CreateAndSync(popped, name, v.state)
  }

  function Sending<V>(sent: Option<Broadcast<V>>): seq<Broadcast<V>> {
    if sent.Some? then [sent.value] else []
  }

  function Run<V>(st: Init<V>, visits: seq<Visit>, shared: set<nat>): Outcome<V>
    decreases |visits|
  {
    if visits == [] then Outcome([], None)
    else
      match VisitOne(st, visits[0], shared)
      case Failed(e) => Outcome([], Some(e))
      case Went(next, sent) =>
        var rest := Run(next, visits[1..], shared);
        rest.(sent := Sending(sent) + rest.sent)
  }

  // ---------------------------------------------------------------- the closure

  class Initializer<V> {
    const shared: set<nat>
    var names: map<nat, seq<string>>
    var shards: map<string, V>
    var materialized: set<nat>
    var sent: seq<Broadcast<V>>

    ghost function State(): Init<V>
      reads this
    {
      Init(names, shards, materialized)
    }

    constructor (names: map<nat, seq<string>>, shards: map<string, V>)
      ensures State() == Init(names, shards, {}) && sent == []
      ensures shared == set s | s in names && |names[s]| > 1
    {
      this.names, this.shards, materialized, sent := names, shards, {}, [];
      shared := set s | s in names && |names[s]| > 1;
    }

    method Create(name: string, state: nat) returns (error: Option<InitError>)
      modifies this
      ensures match CreateAndSync(old(State()), name, state)
              case Failed(e) => error == Some(e) && sent == old(sent)
              case Went(next, b) => error == None && State() == next && sent == old(sent) + Sending(b)
    {
      if name !in shards { return Some(NotLoaded); }
      sent := sent + [Broadcast(name, state, shards[name])];
      shards := shards - {name};
      error := None;
    }

    method InitOne(v: Visit) returns (error: Option<InitError>)
      modifies this
      ensures match VisitOne(old(State()), v, shared)
              case Failed(e) => error == Some(e) && sent == old(sent)
              case Went(next, b) => error == None && State() == next && sent == old(sent) + Sending(b)
    {
      error := None;
      if !v.isMeta { return; }
      if v.state !in names { return Some(UnknownState); }
      if names[v.state] == [] { return Some(NoNameLeft); }
      var name := names[v.state][0];
      names := names[v.state := names[v.state][1..]];
      if !v.isParam && name !in shards { return Some(UnsavedBuffer); }
      if v.state in shared {
        if v.state !in materialized {
          materialized := materialized + {v.state};
          error := Create(name, v.state);
        } else if name in shards {
          shards := shards - {name};
        }
      } else {
        error := Create(name, v.state);
      }
    }

    method InitModule(visits: seq<Visit>) returns (error: Option<InitError>)
      modifies this
      ensures error == Run(old(State()), visits, shared).error
      ensures sent == old(sent) + Run(old(State()), visits, shared).sent
    {
      error := None;
      var i := 0;
      while i < |visits|
        invariant 0 <= i <= |visits| && error == None
        invariant Run(old(State()), visits, shared).error == Run(State(), visits[i..], shared).error
        invariant old(sent) + Run(old(State()), visits, shared).sent == sent + Run(State(), visits[i..], shared).sent
      {
        assert visits[i..][1..] == visits[i + 1..];
        error := InitOne(visits[i]);
        if error != None { return; }
        i := i + 1;
      }
    }
  }

  // ---------------------------------------------------------------- exactly what is broadcast

  /** The visits of a state that has still to be created, among the first i. */
  function Visits(visits: seq<Visit>, i: nat, state: nat): nat
    requires i <= |visits|
  {
    if i == 0 then 0
    else Visits(visits, i - 1, state) + if visits[i - 1].isMeta && visits[i - 1].state == state then 1 else 0
  }

  /** The k-th such visit of a state takes its k-th name. */
  predicate HasName(names: map<nat, seq<string>>, visits: seq<Visit>, i: nat)
    requires i < |visits|
  {
    visits[i].state in names && Visits(visits, i, visits[i].state) < |names[visits[i].state]|
  }

  function NameAt(names: map<nat, seq<string>>, visits: seq<Visit>, i: nat): string
    requires i < |visits| && HasName(names, visits, i)
  {
    names[visits[i].state][Visits(visits, i, visits[i].state)]
  }

  /** Visit i broadcasts: the state is not shared, or this is the first visit of it. */
  predicate Sends(visits: seq<Visit>, shared: set<nat>, i: nat)
    requires i < |visits|
  {
    visits[i].isMeta && (visits[i].state in shared ==> Visits(visits, i, visits[i].state) == 0)
  }

  /** The broadcasts of the first i visits. */
  function Sent(visits: seq<Visit>, shared: set<nat>, i: nat): nat
    requires i <= |visits|
  {
    if i == 0 then 0 else Sent(visits, shared, i - 1) + if Sends(visits, shared, i - 1) then 1 else 0
  }

  /** The name is loaded, and no earlier visit has taken it. */
  ghost predicate Loaded<V>(names: map<nat, seq<string>>, shards: map<string, V>, visits: seq<Visit>, i: nat,
                            name: string)
    requires i <= |visits|
  {
    && name in shards
    && forall j :: 0 <= j < i && visits[j].isMeta && HasName(names, visits, j) ==> NameAt(names, visits, j) != name
  }

  /** What visit i fails with, if it does: it has no name, or a buffer or a state to be broadcast is not loaded. */
  ghost function ErrorAt<V>(names: map<nat, seq<string>>, shards: map<string, V>, visits: seq<Visit>, shared: set<nat>,
                            i: nat): Option<InitError>
    requires i < |visits|
  {
    var v := visits[i];
    if !v.isMeta then None
    else if v.state !in names then Some(UnknownState)
    else if !HasName(names, visits, i) then Some(NoNameLeft)
    else if Loaded(names, shards, visits, i, NameAt(names, visits, i)) then None
    else if !v.isParam then Some(UnsavedBuffer)
    else if Sends(visits, shared, i) then Some(NotLoaded)
    else None
  }

  /** The names, the shards and the created states after i visits without an error. */
  ghost predicate NamesAfter(names: map<nat, seq<string>>, visits: seq<Visit>, i: nat, left: map<nat, seq<string>>)
    requires i <= |visits|
  {
    && left.Keys == names.Keys
    && forall s :: s in names ==> Visits(visits, i, s) <= |names[s]| && left[s] == names[s][Visits(visits, i, s)..]
  }

  ghost predicate ShardsAfter<V>(names: map<nat, seq<string>>, shards: map<string, V>, visits: seq<Visit>, i: nat,
                                 left: map<string, V>)
    requires i <= |visits|
  {
    && (forall n :: n in left <==> Loaded(names, shards, visits, i, n))
    && (forall n :: n in left ==> left[n] == shards[n])
  }

  ghost predicate CreatedAfter(visits: seq<Visit>, shared: set<nat>, i: nat, created: set<nat>)
    requires i <= |visits|
  {
    forall s :: s in created <==> s in shared && Visits(visits, i, s) > 0
  }

  ghost predicate After<V>(names: map<nat, seq<string>>, shards: map<string, V>, visits: seq<Visit>, shared: set<nat>,
                           i: nat, st: Init<V>)
    requires i <= |visits|
  {
    && NamesAfter(names, visits, i, st.names) && ShardsAfter(names, shards, visits, i, st.shards)
    && CreatedAfter(visits, shared, i, st.materialized)
  }

  lemma NameTaken(names: map<nat, seq<string>>, visits: seq<Visit>, i: nat, left: map<nat, seq<string>>)
    requires i < |visits| && visits[i].isMeta && HasName(names, visits, i) && NamesAfter(names, visits, i, left)
    ensures left[visits[i].state] != [] && left[visits[i].state][0] == NameAt(names, visits, i)
    ensures NamesAfter(names, visits, i + 1, left[visits[i].state := left[visits[i].state][1..]])
  {
  }

  lemma ShardTaken<V>(names: map<nat, seq<string>>, shards: map<string, V>, visits: seq<Visit>, i: nat,
                      left: map<string, V>)
    requires i < |visits| && visits[i].isMeta && HasName(names, visits, i)
    requires ShardsAfter(names, shards, visits, i, left)
    ensures ShardsAfter(names, shards, visits, i + 1, left - {NameAt(names, visits, i)})
  {
    var name, rest := NameAt(names, visits, i), left - {NameAt(names, visits, i)};
    forall n
      ensures n in rest <==> Loaded(names, shards, visits, i + 1, n)
    {
      assert n in left <==> Loaded(names, shards, visits, i, n);
    }
  }

  lemma NothingTaken<V>(names: map<nat, seq<string>>, shards: map<string, V>, visits: seq<Visit>, shared: set<nat>,
                        i: nat, st: Init<V>)
    requires i < |visits| && !visits[i].isMeta && After(names, shards, visits, shared, i, st)
    ensures After(names, shards, visits, shared, i + 1, st)
  {
    forall n
      ensures Loaded(names, shards, visits, i, n) <==> Loaded(names, shards, visits, i + 1, n)
    {
    }
  }

  /** One visit fails just when it has to, and broadcasts just when it has to. */
  lemma VisitExactly<V>(names: map<nat, seq<string>>, shards: map<string, V>, visits: seq<Visit>, shared: set<nat>,
                        i: nat, st: Init<V>)
    requires i < |visits| && After(names, shards, visits, shared, i, st)
    ensures match ErrorAt(names, shards, visits, shared, i)
            case Some(e) => VisitOne(st, visits[i], shared) == Failed(e)
            case None =>
              && VisitOne(st, visits[i], shared).Went?
              && After(names, shards, visits, shared, i + 1, VisitOne(st, visits[i], shared).next)
              && VisitOne(st, visits[i], shared).sent.Some? == Sends(visits, shared, i)
    ensures ErrorAt(names, shards, visits, shared, i) == None && Sends(visits, shared, i) ==>
              && HasName(names, visits, i) && NameAt(names, visits, i) in shards
              && var name := NameAt(names, visits, i);
                 VisitOne(st, visits[i], shared).sent == Some(Broadcast(name, visits[i].state, shards[name]))
  {
    var v := visits[i];
    if !v.isMeta {
      NothingTaken(names, shards, visits, shared, i, st);
    } else if HasName(names, visits, i) {
      NameTaken(names, visits, i, st.names);
      ShardTaken(names, shards, visits, i, st.shards);
      assert NameAt(names, visits, i) in st.shards <==> Loaded(names, shards, visits, i, NameAt(names, visits, i));
      assert NameAt(names, visits, i) !in st.shards ==> st.shards - {NameAt(names, visits, i)} == st.shards;
    }
  }

  /** What the first n visits broadcast, in visiting order: every unshared state, and every shared one at its
      first visit, each with the name its visit takes and the entry loaded under it. */
  ghost predicate SentExactly<V>(names: map<nat, seq<string>>, shards: map<string, V>, visits: seq<Visit>,
                                 shared: set<nat>, from: nat, n: nat, sent: seq<Broadcast<V>>)
    requires from <= n <= |visits|
  {
    && |sent| == Sent(visits, shared, n) - Sent(visits, shared, from)
    && forall i :: from <= i < n && Sends(visits, shared, i) ==>
         && HasName(names, visits, i) && NameAt(names, visits, i) in shards
         && 0 <= Sent(visits, shared, i) - Sent(visits, shared, from) < |sent|
         && sent[Sent(visits, shared, i) - Sent(visits, shared, from)]
            == Broadcast(NameAt(names, visits, i), visits[i].state, shards[NameAt(names, visits, i)])
  }

  lemma {:induction false} SentGrows(visits: seq<Visit>, shared: set<nat>, i: nat, n: nat)
    requires i <= n <= |visits|
    ensures Sent(visits, shared, i) <= Sent(visits, shared, n)
  {
    if i < n { SentGrows(visits, shared, i, n - 1); }
  }

  lemma SentFirstAt<V>(names: map<nat, seq<string>>, shards: map<string, V>, visits: seq<Visit>, shared: set<nat>,
                       from: nat, n: nat, first: Option<Broadcast<V>>, rest: seq<Broadcast<V>>, i: nat)
    requires from <= i < n <= |visits| && SentExactly(names, shards, visits, shared, from + 1, n, rest)
    requires first.Some? == Sends(visits, shared, from) && Sends(visits, shared, i)
    requires first.Some? ==>
               && HasName(names, visits, from) && NameAt(names, visits, from) in shards
               && var name := NameAt(names, visits, from);
                  first.value == Broadcast(name, visits[from].state, shards[name])
    ensures HasName(names, visits, i) && NameAt(names, visits, i) in shards
    ensures var sent, k := Sending(first) + rest, Sent(visits, shared, i) - Sent(visits, shared, from);
      && 0 <= k < |sent|
      && sent[k] == Broadcast(NameAt(names, visits, i), visits[i].state, shards[NameAt(names, visits, i)])
  {
    if i > from { SentGrows(visits, shared, from + 1, i); }
  }

  lemma SentFirst<V>(names: map<nat, seq<string>>, shards: map<string, V>, visits: seq<Visit>, shared: set<nat>,
                     from: nat, n: nat, first: Option<Broadcast<V>>, rest: seq<Broadcast<V>>)
    requires from < n <= |visits| && SentExactly(names, shards, visits, shared, from + 1, n, rest)
    requires first.Some? == Sends(visits, shared, from)
    requires first.Some? ==>
               && HasName(names, visits, from) && NameAt(names, visits, from) in shards
               && var name := NameAt(names, visits, from);
                  first.value == Broadcast(name, visits[from].state, shards[name])
    ensures SentExactly(names, shards, visits, shared, from, n, Sending(first) + rest)
  {
    SentGrows(visits, shared, from + 1, n);
    var sent := Sending(first) + rest;
    forall i | from <= i < n && Sends(visits, shared, i)
      ensures HasName(names, visits, i) && NameAt(names, visits, i) in shards
      ensures 0 <= Sent(visits, shared, i) - Sent(visits, shared, from) < |sent|
      ensures sent[Sent(visits, shared, i) - Sent(visits, shared, from)]
           == Broadcast(NameAt(names, visits, i), visits[i].state, shards[NameAt(names, visits, i)])
    {
      SentFirstAt(names, shards, visits, shared, from, n, first, rest, i);
    }
  }

  lemma {:induction false} RunFromExactly<V>(names: map<nat, seq<string>>, shards: map<string, V>, visits: seq<Visit>,
                                             shared: set<nat>, from: nat, st: Init<V>) returns (n: nat)
    requires from <= |visits| && After(names, shards, visits, shared, from, st)
    ensures from <= n <= |visits| && forall i :: from <= i < n ==> ErrorAt(names, shards, visits, shared, i) == None
    ensures Run(st, visits[from..], shared).error
         == if n == |visits| then None else ErrorAt(names, shards, visits, shared, n)
    ensures n < |visits| ==> ErrorAt(names, shards, visits, shared, n).Some?
    ensures SentExactly(names, shards, visits, shared, from, n, Run(st, visits[from..], shared).sent)
    decreases |visits| - from
  {
    n := from;
    if from < |visits| {
      assert visits[from..][0] == visits[from] && visits[from..][1..] == visits[from + 1..];
      VisitExactly(names, shards, visits, shared, from, st);
      var went := VisitOne(st, visits[from], shared);
      if went.Went? {
        n := RunFromExactly(names, shards, visits, shared, from + 1, went.next);
        SentFirst(names, shards, visits, shared, from, n, went.sent, Run(went.next, visits[from + 1..], shared).sent);
      }
    }
  }

  /** The traversal goes on to the first visit whose name is missing or, where it matters, not loaded; up to there
      it broadcasts exactly what is to be broadcast. */
  lemma InitExactly<V>(names: map<nat, seq<string>>, shards: map<string, V>, visits: seq<Visit>, shared: set<nat>)
    returns (n: nat)
    ensures n <= |visits| && forall i :: 0 <= i < n ==> ErrorAt(names, shards, visits, shared, i) == None
    ensures var run := Run(Init(names, shards, {}), visits, shared);
            && run.error == (if n == |visits| then None else ErrorAt(names, shards, visits, shared, n))
            && (n < |visits| ==> run.error.Some?)
            && SentExactly(names, shards, visits, shared, 0, n, run.sent)
  {
    assert visits[0..] == visits;
    n := RunFromExactly(names, shards, visits, shared, 0, Init(names, shards, {}));
  }

  // ---------------------------------------------------------------- ranks that agree on the sources

  function SourceOf<T>(b: Broadcast<Entry<T>>, me: nat): Broadcast<nat> {
    Broadcast(b.name, b.state, Source(b.entry, me))
  }

  function SourcesOf<T>(sent: seq<Broadcast<Entry<T>>>, me: nat): (r: seq<Broadcast<nat>>)
    ensures |r| == |sent| && forall i :: 0 <= i < |r| ==> r[i] == SourceOf(sent[i], me)
  {
    seq(|sent|, i requires 0 <= i < |sent| => SourceOf(sent[i], me))
  }

  /** The state with every entry replaced by the rank it names. */
  ghost function Abstract<T>(st: Init<Entry<T>>, me: nat): Init<nat> {
    Init(st.names, Sources(st.shards, me), st.materialized)
  }

  lemma WithoutName<T>(shards: map<string, Entry<T>>, name: string, me: nat)
    ensures Sources(shards - {name}, me) == Sources(shards, me) - {name}
  {
  }

  lemma VisitsAgree<T>(st: Init<Entry<T>>, v: Visit, shared: set<nat>, me: nat)
    ensures VisitOne(Abstract(st, me), v, shared) ==
      match VisitOne(st, v, shared)
      case Failed(e) => Failed(e)
      case Went(next, sent) => Went(Abstract(next, me), if sent.Some? then Some(SourceOf(sent.value, me)) else None)
  {
    if v.isMeta && v.state in st.names && st.names[v.state] != [] { WithoutName(st.shards, st.names[v.state][0], me); }
  }

  /** What a rank broadcasts depends on its shards only through the sources. */
  lemma {:induction false} RunOfSources<T>(st: Init<Entry<T>>, visits: seq<Visit>, shared: set<nat>, me: nat)
    ensures Run(Abstract(st, me), visits, shared).sent == SourcesOf(Run(st, visits, shared).sent, me)
    ensures Run(Abstract(st, me), visits, shared).error == Run(st, visits, shared).error
    decreases |visits|
  {
    if visits != [] {
      VisitsAgree(st, visits[0], shared, me);
      if VisitOne(st, visits[0], shared).Went? {
        RunOfSources(VisitOne(st, visits[0], shared).next, visits[1..], shared, me);
      }
    }
  }

  /** On the same module all ranks issue the same broadcasts, in the same order, from the same ranks, and stop
      at the same error if at all, shared parameters included. */
  lemma SameBroadcastsOnAllRanks<T>(c: Checkpoint<T>, world: nat, me: nat, you: nat, names: map<nat, seq<string>>,
                                    visits: seq<Visit>, shared: set<nat>)
    requires c.Mapped() && me < world && you < world && IndexFits(c, OwnerList(|c.files|, world))
    ensures var mine := Run(Init(names, Shards(c, world, me), {}), visits, shared);
            var yours := Run(Init(names, Shards(c, world, you), {}), visits, shared);
            SourcesOf(mine.sent, me) == SourcesOf(yours.sent, you) && mine.error == yours.error
  {
    AllRanksAgree(c, world, me, you);
    RunOfSources(Init(names, Shards(c, world, me), {}), visits, shared, me);
    RunOfSources(Init(names, Shards(c, world, you), {}), visits, shared, you);
  }

  lemma {:induction false} SentEntries<V>(st: Init<V>, visits: seq<Visit>, shared: set<nat>, i: nat)
    requires i < |Run(st, visits, shared).sent|
    ensures var b := Run(st, visits, shared).sent[i]; b.name in st.shards && b.entry == st.shards[b.name]
    decreases |visits|
  {
    var went := VisitOne(st, visits[0], shared);
    var first := Sending(went.sent);
    if i >= |first| { SentEntries(went.next, visits[1..], shared, i - |first|); }
  }

  /** Every broadcast names the rank that has the parameter from its file, and that rank sends the file's tensor. */
  lemma BroadcastsSendTheFiles<T>(c: Checkpoint<T>, world: nat, me: nat, names: map<nat, seq<string>>,
                                  visits: seq<Visit>, shared: set<nat>, i: nat) returns (f: nat)
    requires c.Mapped() && me < world && IndexFits(c, OwnerList(|c.files|, world))
    requires i < |Run(Init(names, Shards(c, world, me), {}), visits, shared).sent|
    ensures var b := Run(Init(names, Shards(c, world, me), {}), visits, shared).sent[i];
      && f < |c.files| && b.name in c.contents[c.files[f]] && Source(b.entry, me) == Owner(|c.files|, world, f) < world
      && (Source(b.entry, me) == me ==> b.entry == Held(c.contents[c.files[f]][b.name]))
  {
    var st := Init(names, Shards(c, world, me), {});
    var b := Run(st, visits, shared).sent[i];
    SentEntries(st, visits, shared, i);
    var listed := NothingElseIsLoaded(c, world, me, b.name);
    f := OneRankHoldsEach(c, world, listed, b.name);
  }

  // ---------------------------------------------------------------- shared parameters

  /** The state may still be broadcast. */
  predicate Open<V>(st: Init<V>, shared: set<nat>, state: nat) {
    state in st.names && if state in shared then state !in st.materialized else st.names[state] != []
  }

  ghost predicate NamesOk<V>(st: Init<V>, shared: set<nat>) {
    forall s :: s in st.names && s !in shared ==> |st.names[s]| <= 1
  }

  lemma VisitCloses<V>(st: Init<V>, v: Visit, shared: set<nat>)
    requires NamesOk(st, shared) && VisitOne(st, v, shared).Went?
    ensures var went := VisitOne(st, v, shared);
      && NamesOk(went.next, shared)
      && (forall s :: Open(went.next, shared, s) ==> Open(st, shared, s))
      && (went.sent.Some? ==>
            Open(st, shared, went.sent.value.state) && !Open(went.next, shared, went.sent.value.state))
  {
  }

  lemma {:induction false} SentWereOpen<V>(st: Init<V>, visits: seq<Visit>, shared: set<nat>, i: nat)
    requires NamesOk(st, shared) && i < |Run(st, visits, shared).sent|
    ensures Open(st, shared, Run(st, visits, shared).sent[i].state)
    decreases |visits|
  {
    var went := VisitOne(st, visits[0], shared);
    VisitCloses(st, visits[0], shared);
    var first := Sending(went.sent);
    if i >= |first| { SentWereOpen(went.next, visits[1..], shared, i - |first|); }
  }

  /** No state is broadcast twice, however often a shared one is met. */
  lemma {:induction false} EachStateIsSentOnce<V>(st: Init<V>, visits: seq<Visit>, shared: set<nat>, i: nat, j: nat)
    requires NamesOk(st, shared) && i < j < |Run(st, visits, shared).sent|
    ensures Run(st, visits, shared).sent[i].state != Run(st, visits, shared).sent[j].state
    decreases |visits|
  {
    var went := VisitOne(st, visits[0], shared);
    VisitCloses(st, visits[0], shared);
    var n := |Sending(went.sent)|;
    if i >= n {
      EachStateIsSentOnce(went.next, visits[1..], shared, i - n, j - n);
    } else {
      SentWereOpen(went.next, visits[1..], shared, j - n);
    }
  }
}
