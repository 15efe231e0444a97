/** Deployment revisions: optimistic versioning under concurrent creators, rollbacks and redeployments. */
module Revisions {
  import opened Wrappers

  const MAX_ATTEMPTS := 4

  datatype ApplicationId = ApplicationId(id: int)

  datatype BuildId = BuildId(id: int)

  datatype CreatorId = CreatorId(id: int)

  /** What a creator is asked for. */
  datatype Input = Input(application: ApplicationId, build: Option<BuildId>)

  datatype Revision = Revision(application: ApplicationId, version: nat, build: Option<BuildId>)

  // ---------------------------------------------------------------------------------------------------------------
  // The table, in the order of insertion. Revisions are never deleted.

  type Table = seq<Revision>

  /** The first revision of a build. */
  function FindBuild(table: Table, build: BuildId): (r: Option<Revision>)
    ensures r.Some? ==> r.value in table && r.value.build == Some(build)
    ensures r.None? <==> forall row :: row in table ==> row.build != Some(build)
  {
    if table == [] then None
    else if table[0].build == Some(build) then Some(table[0])
    else FindBuild(table[1..], build)
  }

  /** The highest version of an application, 0 when it has no revision. */
  function Latest(table: Table, application: ApplicationId): (n: nat)
    ensures forall row :: row in table && row.application == application ==> row.version <= n
    ensures n > 0 ==> exists row :: row in table && row.application == application && row.version == n
  {
    if table == [] then 0
    else
      var rest := Latest(table[..|table| - 1], application);
      var last := table[|table| - 1];
      assert table == table[..|table| - 1] + [last];
      if last.application == application && last.version > rest then last.version else rest
  }

  /** The unique indexes: one row for each application and version, and for each build. */
  predicate Conflicts(table: Table, revision: Revision) {
    exists row :: row in table &&
      ((row.application == revision.application && row.version == revision.version)
          || (row.build.Some? && row.build == revision.build))
  }

  function Next(table: Table, input: Input): Revision {
    Revision(input.application, Latest(table, input.application) + 1, input.build)
  }

  class RevisionStore {
    var table: Table

    constructor ()
      ensures table == []
    {
      table := [];
    }

    /** Creates a revision, or returns the one the build already has. Undisturbed, the first attempt succeeds. */
    method CreateDeployment(input: Input) returns (created: Revision)
      requires Sound(table)
      modifies this
      ensures Sound(table)
      ensures if input.build.Some? && FindBuild(old(table), input.build.value).Some?
              then table == old(table) && created == FindBuild(old(table), input.build.value).value
              else created == Next(old(table), input) && table == old(table) + [created]
      ensures table != old(table) ==>
                && table == old(table) + [created]
                && created.application == input.application && created.build == input.build
                && (forall row :: row in old(table) && row.application == input.application ==>
                      row.version < created.version)
                && (created.version == 1
                    || exists row :: row in old(table) && row.application == input.application
                                     && row.version == created.version - 1)
    {
      if input.build.Some? {
        var existing := FindBuild(table, input.build.value);
        if existing.Some? { return existing.value; }
      }
      created := Next(table, input);
      NextIsFree(table, input, Latest(table, input.application));
      InsertKeepsSound(table, created);
      table := table + [created];
    }

    method Rollback(source: Revision) returns (created: Revision)
      requires Sound(table) && source in table
      modifies this
      ensures Sound(table)
      ensures if source.build.Some? then table == old(table) && created == source
              else created == Next(old(table), Input(source.application, None)) && table == old(table) + [created]
    {
      if source.build.Some? { BuildIsSource(table, source); }
      created := CreateDeployment(Input(source.application, source.build));
    }

    method Redeploy(source: Revision) returns (created: Revision)
      requires Sound(table) && source in table
      modifies this
      ensures Sound(table) && table == old(table) + [created]
      ensures created == Next(old(table), Input(source.application, None))
    {
      created := CreateDeployment(Input(source.application, None));
    }
  }

  // ---------------------------------------------------------------------------------------------------------------
  // What holds of the table.

  /** The versions of an application in the order of insertion. */
  function VersionsOf(table: Table, application: ApplicationId): seq<nat> {
    if table == [] then []
    else
      var last := table[|table| - 1];
      VersionsOf(table[..|table| - 1], application) + if last.application == application then [last.version] else []
  }

  predicate Consecutive(versions: seq<nat>) { forall i :: 0 <= i < |versions| ==> versions[i] == i + 1 }

  predicate BuildsUnique(table: Table) {
    forall i, j :: 0 <= i < j < |table| && table[i].build.Some? ==> table[i].build != table[j].build
  }

  /** Each application's versions are 1 to n in the order of insertion, and no two revisions share a build. */
  ghost predicate Sound(table: Table) {
    (forall application :: Consecutive(VersionsOf(table, application))) && BuildsUnique(table)
  }

  ghost predicate HasVersion(table: Table, application: ApplicationId, version: nat) {
    exists row :: row in table && row.application == application && row.version == version
  }

  lemma {:induction false} ListedIffPresent(table: Table, application: ApplicationId, version: nat)
    ensures version in VersionsOf(table, application) <==> HasVersion(table, application, version)
  {
    if table != [] {
      var init, last := table[..|table| - 1], table[|table| - 1];
      ListedIffPresent(init, application, version);
      assert table == init + [last];
    }
  }

  lemma {:induction false} LatestIsCount(table: Table, application: ApplicationId)
    requires Consecutive(VersionsOf(table, application))
    ensures Latest(table, application) == |VersionsOf(table, application)|
  {
    if table != [] {
      var init := table[..|table| - 1];
      ConsecutivePrefix(VersionsOf(init, application), VersionsOf(table, application));
      LatestIsCount(init, application);
      var versions := VersionsOf(table, application);
      assert table[|table| - 1].application == application ==> versions[|versions| - 1] == |versions|;
    }
  }

  lemma ConsecutivePrefix(fewer: seq<nat>, versions: seq<nat>)
    requires Consecutive(versions) && fewer <= versions
    ensures Consecutive(fewer)
  {
  }

  /** In a sound table exactly the versions above the latest are free. */
  lemma VersionFreeIff(table: Table, application: ApplicationId, version: nat)
    requires Sound(table) && version > 0
    ensures !HasVersion(table, application, version) <==> version > Latest(table, application)
  {
    hide VersionsOf, Latest;
    assert Consecutive(VersionsOf(table, application));
    LatestIsCount(table, application);
    ListedIffPresent(table, application, version);
    var versions := VersionsOf(table, application);
    if version <= |versions| {
      assert versions[version - 1] == version;
    }
  }

  lemma NextIsFree(table: Table, input: Input, previous: nat)
    requires Sound(table) && previous == Latest(table, input.application)
    requires input.build.Some? ==> FindBuild(table, input.build.value).None?
    ensures !Conflicts(table, Revision(input.application, previous + 1, input.build))
  {
  }

  /** A row that conflicts with none, with a version at most one above the latest, keeps the table sound. */
  lemma InsertKeepsSound(table: Table, row: Revision)
    requires Sound(table) && !Conflicts(table, row) && 1 <= row.version <= Latest(table, row.application) + 1
    ensures Sound(table + [row]) && row.version == Latest(table, row.application) + 1
  {
    VersionFreeIff(table, row.application, row.version);
    assert Consecutive(VersionsOf(table, row.application));
    LatestIsCount(table, row.application);
    assert (table + [row])[..|table|] == table;
    forall application ensures Consecutive(VersionsOf(table + [row], application)) {
      assert Consecutive(VersionsOf(table, application));
    }
  }

  lemma {:induction false} LatestGrows(table: Table, more: Table, application: ApplicationId)
    requires table <= more
    ensures Latest(table, application) <= Latest(more, application)
  {
    if Latest(table, application) > 0 {
      var row :| row in table && row.application == application && row.version == Latest(table, application);
      assert row in more;
    }
  }

  lemma BuildIsSource(table: Table, source: Revision)
    requires BuildsUnique(table) && source in table && source.build.Some?
    ensures FindBuild(table, source.build.value) == Some(source)
  {
    var found := FindBuild(table, source.build.value).value;
    var i :| 0 <= i < |table| && table[i] == source;
    var j :| 0 <= j < |table| && table[j] == found;
  }

  // ---------------------------------------------------------------------------------------------------------------
  // Concurrent creators, statement by statement.

  /** Where a creator stands. `seen` is the size of the table when its transaction looked for the build. */
  datatype Pc =
    | Checking | Opening | Reading(seen: nat) | Inserting(seen: nat, previous: nat)
    | Returned(revision: Revision, created: bool) | Exhausted | Aborted

  /** `began` is the size of the table when the creator began. */
  datatype Creator = Creator(input: Input, pc: Pc, attempt: nat, began: nat)

  datatype State = State(table: Table, creators: map<CreatorId, Creator>)

  datatype Event =
    | Begin(id: CreatorId, input: Input) | CheckBuild(id: CreatorId) | Open(id: CreatorId) | ReadLatest(id: CreatorId)
    | Insert(id: CreatorId) | Abort(id: CreatorId)

  predicate Allowed(s: State, event: Event) {
    match event
    case Begin(id, _) => id !in s.creators
    case CheckBuild(id) => id in s.creators && s.creators[id].pc == Checking
    case Open(id) => id in s.creators && s.creators[id].pc == Opening
    case ReadLatest(id) => id in s.creators && s.creators[id].pc.Reading?
    case Insert(id) => id in s.creators && s.creators[id].pc.Inserting?
    case Abort(id) => id in s.creators && !s.creators[id].pc.Returned? && s.creators[id].pc != Exhausted
  }

  /** The existing revision of the build, or on to the next statement. */
  function Looked(table: Table, c: Creator, next: Pc): Creator {
    if c.input.build.Some? && FindBuild(table, c.input.build.value).Some?
    then c.(pc := Returned(FindBuild(table, c.input.build.value).value, false))
    else c.(pc := next)
  }

  function Conflicted(c: Creator): Creator {
    if c.attempt == MAX_ATTEMPTS - 1 then c.(pc := Exhausted) else c.(pc := Opening, attempt := c.attempt + 1)
  }

  function Acted(table: Table, c: Creator, event: Event): (Table, Creator)
    requires event.Insert? ==> c.pc.Inserting?
    requires event.ReadLatest? ==> c.pc.Reading?
  {
    match event
    case Begin(_, input) => (table, Creator(input, Checking, 0, |table|))
    case CheckBuild(_) => (table, Looked(table, c, Opening))
    case Open(_) => (table, Looked(table, c, Reading(|table|)))
    case ReadLatest(_) => (table, c.(pc := Inserting(c.pc.seen, Latest(table, c.input.application))))
    case Insert(_) =>
      var row := Revision(c.input.application, c.pc.previous + 1, c.input.build);
      if Conflicts(table, row) then (table, Conflicted(c)) else (table + [row], c.(pc := Returned(row, true)))
    case Abort(_) => (table, c.(pc := Aborted))
  }

  function After(s: State, event: Event): State
    requires Allowed(s, event)
  {
    var c := if event.Begin? then Creator(event.input, Checking, 0, |s.table|) else s.creators[event.id];
    var (table, acted) := Acted(s.table, c, event);
    State(table, s.creators[event.id := acted])
  }

  predicate Run(states: seq<State>, events: seq<Event>) {
    && |states| == |events| + 1 && states[0] == State([], map[])
    && forall i :: 0 <= i < |events| ==> Allowed(states[i], events[i]) && states[i + 1] == After(states[i], events[i])
  }

  /** Each attempt so far met a revision that was inserted meanwhile. */
  ghost predicate CreatorOk(table: Table, c: Creator) {
    && c.began <= |table| && c.attempt < MAX_ATTEMPTS
    && match c.pc
       case Checking => c.attempt == 0
       case Opening => c.began + c.attempt <= |table|
       case Reading(seen) => SeenOk(table, c, seen)
       case Inserting(seen, previous) =>
         && SeenOk(table, c, seen)
         && Latest(table[..seen], c.input.application) <= previous <= Latest(table, c.input.application)
       case Returned(revision, created) =>
         && revision in table && (c.input.build.Some? ==> revision.build == c.input.build)
         && if created then revision in table[c.began..] && revision.application == c.input.application
             && revision.build == c.input.build
            else c.input.build.Some?
       case Exhausted => c.began + MAX_ATTEMPTS <= |table|
       case Aborted => true
  }

  ghost predicate SeenOk(table: Table, c: Creator, seen: nat) {
    && c.began + c.attempt <= seen <= |table|
    && (c.input.build.Some? ==> FindBuild(table[..seen], c.input.build.value).None?)
  }

  ghost predicate Inv(s: State) {
    Sound(s.table) && forall id :: id in s.creators ==> CreatorOk(s.table, s.creators[id])
  }

  lemma CreatorStaysOk(table: Table, more: Table, c: Creator)
    requires CreatorOk(table, c) && table <= more
    ensures CreatorOk(more, c)
  {
    LatestGrows(table, more, c.input.application);
    assert forall seen: nat :: seen <= |table| ==> table[..seen] == more[..seen];
    assert table[c.began..] <= more[c.began..];
    assert forall r :: r in table ==> r in more;
    assert forall r :: r in table[c.began..] ==> r in more[c.began..];
  }

  /** A conflict is somebody else's progress: a row inserted after this attempt had looked. */
  lemma ConflictMeansProgress(table: Table, c: Creator, seen: nat, previous: nat)
    requires Sound(table) && SeenOk(table, c, seen) && Latest(table[..seen], c.input.application) <= previous
    requires Conflicts(table, Revision(c.input.application, previous + 1, c.input.build))
    ensures seen < |table|
    ensures exists row :: row in table[seen..]
              && (row.application == c.input.application || (row.build.Some? && row.build == c.input.build))
  {
    var mine := Revision(c.input.application, previous + 1, c.input.build);
    var row :| row in table && ((row.application == mine.application && row.version == mine.version)
        || (row.build.Some? && row.build == mine.build));
    assert table == table[..seen] + table[seen..];
    assert row !in table[..seen];
    assert row in table[seen..];
  }

  lemma ActedIsOk(table: Table, c: Creator, event: Event)
    requires Sound(table) && CreatorOk(table, c)
    requires match event
             case Begin(_, input) => c == Creator(input, Checking, 0, |table|)
             case CheckBuild(_) => c.pc == Checking
             case Open(_) => c.pc == Opening
             case ReadLatest(_) => c.pc.Reading?
             case Insert(_) => c.pc.Inserting?
             case Abort(_) => true
    ensures Sound(Acted(table, c, event).0) && table <= Acted(table, c, event).0
              && CreatorOk(Acted(table, c, event).0, Acted(table, c, event).1)
  {
    match event
    case Insert(_) => InsertIsOk(table, c, event);
    case ReadLatest(_) => LatestGrows(table[..c.pc.seen], table, c.input.application);
    case _ => assert table[..|table|] == table;
  }

  lemma InsertIsOk(table: Table, c: Creator, event: Event)
    requires Sound(table) && CreatorOk(table, c) && event.Insert? && c.pc.Inserting?
    ensures Sound(Acted(table, c, event).0) && table <= Acted(table, c, event).0
              && CreatorOk(Acted(table, c, event).0, Acted(table, c, event).1)
  {
    hide Sound, Latest;
    var row := Revision(c.input.application, c.pc.previous + 1, c.input.build);
    if Conflicts(table, row) {
      ConflictMeansProgress(table, c, c.pc.seen, c.pc.previous);
    } else {
      InsertKeepsSound(table, row);
      assert (table + [row])[c.began..] == table[c.began..] + [row];
    }
  }

  lemma StepKeepsInv(s: State, event: Event)
    requires Inv(s) && Allowed(s, event)
    ensures Inv(After(s, event)) && s.table <= After(s, event).table
  {
    hide Sound, CreatorOk, Acted;
    var c := if event.Begin? then Creator(event.input, Checking, 0, |s.table|) else s.creators[event.id];
    if event.Begin? {
      BeginIsOk(s.table, event.input);
    }
    ActedIsOk(s.table, c, event);
    var s' := After(s, event);
    forall id | id in s'.creators ensures CreatorOk(s'.table, s'.creators[id]) {
      if id != event.id {
        CreatorStaysOk(s.table, s'.table, s.creators[id]);
      }
    }
  }

  lemma BeginIsOk(table: Table, input: Input)
    ensures CreatorOk(table, Creator(input, Checking, 0, |table|))
  {
  }

  lemma {:induction false} RunKeepsInv(states: seq<State>, events: seq<Event>, i: nat)
    requires Run(states, events) && i < |states|
    ensures Inv(states[i])
  {
    hide After, Allowed;
    if i > 0 {
      RunKeepsInv(states, events, i - 1);
      StepKeepsInv(states[i - 1], events[i - 1]);
    }
  }

  // ---------------------------------------------------------------------------------------------------------------
  // Over whole runs.

  /** Each application's versions are exactly 1 to n, without gap or repeat, and no two revisions share a build. */
  lemma VersionsAreConsecutive(states: seq<State>, events: seq<Event>, i: nat, application: ApplicationId)
    requires Run(states, events) && i < |states|
    ensures var versions := VersionsOf(states[i].table, application);
            && Consecutive(versions)
            && forall v: nat :: HasVersion(states[i].table, application, v) <==> 1 <= v <= |versions|
    ensures BuildsUnique(states[i].table)
  {
    hide Run;
    hide VersionsOf;
    RunKeepsInv(states, events, i);
    assert Consecutive(VersionsOf(states[i].table, application));
    var versions := VersionsOf(states[i].table, application);
    forall v: nat ensures HasVersion(states[i].table, application, v) <==> 1 <= v <= |versions| {
      ListedIffPresent(states[i].table, application, v);
      if 1 <= v <= |versions| {
        assert versions[v - 1] == v;
      }
    }
  }

  /** A creator gives up for conflicts only after at least four revisions were inserted by others while it tried. */
  lemma ExhaustionMeansProgress(states: seq<State>, events: seq<Event>, i: nat, id: CreatorId)
    requires Run(states, events) && i < |states| && id in states[i].creators
    ensures states[i].creators[id].attempt < 4
    ensures states[i].creators[id].pc == Exhausted ==> |states[i].table| >= states[i].creators[id].began + 4
  {
    RunKeepsInv(states, events, i);
  }

  /** The input a rollback to `source` passes on: the source's build goes with it. */
  function RollbackOf(source: Revision): Input { Input(source.application, source.build) }

  /** A redeployment leaves the build out. */
  function RedeploymentOf(source: Revision): Input { Input(source.application, None) }

  /** A rollback makes a fresh revision exactly when its source has no build; otherwise it returns the source itself. */
  lemma RollbackIsFreshIff(states: seq<State>, events: seq<Event>, i: nat, id: CreatorId, source: Revision)
    requires Run(states, events) && i < |states| && id in states[i].creators
    requires var c := states[i].creators[id];
             c.pc.Returned? && c.input == RollbackOf(source) && c.began <= |states[i].table|
                 && source in states[i].table[..c.began]
    ensures states[i].creators[id].pc.created <==> source.build.None?
    ensures source.build.Some? ==> states[i].creators[id].pc.revision == source
  {
    RunKeepsInv(states, events, i);
    var table, c := states[i].table, states[i].creators[id];
    assert table == table[..c.began] + table[c.began..];
    if source.build.Some? {
      BuildIsSource(table, source);
      BuildIsSource(table, c.pc.revision);
      NotAgainLater(table, c.began, source);
    }
  }

  lemma NotAgainLater(table: Table, began: nat, row: Revision)
    requires BuildsUnique(table) && began <= |table| && row in table[..began] && row.build.Some?
    ensures row !in table[began..]
  {
    var k :| 0 <= k < began && table[k] == row;
    forall m | 0 <= m < |table| - began ensures table[began..][m] != row {
      assert table[began..][m] == table[began + m];
    }
  }

  /** A redeployment that returns has always made a fresh revision. */
  lemma RedeploymentIsFresh(states: seq<State>, events: seq<Event>, i: nat, id: CreatorId, source: Revision)
    requires Run(states, events) && i < |states| && id in states[i].creators
    requires states[i].creators[id].pc.Returned? && states[i].creators[id].input == RedeploymentOf(source)
    ensures states[i].creators[id].pc.created && states[i].creators[id].began <= |states[i].table|
    ensures states[i].creators[id].pc.revision in states[i].table[states[i].creators[id].began..]
  {
    RunKeepsInv(states, events, i);
  }
}
