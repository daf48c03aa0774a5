// The composer's draft store: draft sessions, composer contents, and which draft each logical
// project currently points at.
module DraftStore {
  import opened Text
  import opened TerminalContexts

  datatype ProjectRef = ProjectRef(environmentId: string, projectId: string)

  datatype ThreadRef = ThreadRef(environmentId: string, threadId: string)

  datatype Session = Session(
    threadId: string, environmentId: string, projectId: string, logicalProjectKey: string, createdAt: string,
    runtimeMode: string, interactionMode: string, branch: Option<string>, worktreePath: Option<string>,
    envMode: string, promotedTo: Option<ThreadRef>)

  datatype Content = Content(
    prompt: string, terminalContexts: seq<ContextDraft>, images: seq<string>, persistedAttachments: seq<string>,
    modelSelections: map<string, string>, activeProvider: Option<string>, runtimeMode: Option<string>,
    interactionMode: Option<string>)

  // An optional nullable field of an options object: left out, or set to a value or null.
  datatype Setting = Unspecified | SetTo(value: Option<string>)

  datatype Options = Options(
    threadId: Option<string>, branch: Setting, worktreePath: Setting, createdAt: Option<string>,
    envMode: Option<string>, runtimeMode: Option<string>, interactionMode: Option<string>)

  datatype Store = Store(drafts: map<string, Content>, sessions: map<string, Session>, logical: map<string, string>)

  const EMPTY_STORE := Store(map[], map[], map[])
  const EMPTY_CONTENT := Content("", [], [], [], map[], None, None, None)
  const DEFAULT_RUNTIME_MODE := "full-access"
  const DEFAULT_INTERACTION_MODE := "default"

  function OrElse<T>(first: Option<T>, second: T): T {
    match first
    case Some(v) => v
    case None => second
  }

  predicate Truthy(s: Option<string>) {
    s.Some? && s.value != ""
  }

  // ---- Sessions and mappings ----

  predicate Promoting(s: Session) {
    s.promotedTo.Some?
  }

  function AssignMapping(mappings: map<string, string>, key: string, draftId: string): map<string, string> {
    (map k | k in mappings && mappings[k] != draftId :: mappings[k])[key := draftId]
  }

  // Removes every alias of the draft, then maps the key to it.
  method AssignLogicalProjectDraftMapping(mappings: map<string, string>, key: string, draftId: string)
    returns (next: map<string, string>, removedAlias: bool)
    ensures next == AssignMapping(mappings, key, draftId)
    ensures removedAlias <==> exists k :: k in mappings && mappings[k] == draftId && k != key
  {
    next := mappings;
    removedAlias := false;
    var left := mappings.Keys;
    while left != {}
      invariant left <= mappings.Keys
      invariant next == map k | k in mappings && (k in left || mappings[k] != draftId) :: mappings[k]
      invariant removedAlias <==> exists k :: k in mappings && k !in left && mappings[k] == draftId && k != key
    {
      var k :| k in left;
      left := left - {k};
      if mappings[k] == draftId {
        if k != key {
          removedAlias := true;
        }
        next := next - {k};
      }
    }
    next := next[key := draftId];
  }

  function Resolved(setting: Setting, unspecified: Option<string>): Option<string> {
    match setting
    case Unspecified => unspecified
    case SetTo(value) => value
  }

  function CreateSession(
      ref: ProjectRef, threadId: string, key: string, existing: Option<Session>, o: Options, now: string): Session
  {
    var changed := existing.Some? &&
        (existing.value.environmentId != ref.environmentId || existing.value.projectId != ref.projectId);
    var keep := existing.Some? && !changed;
    var worktreePath := Resolved(o.worktreePath, if keep then existing.value.worktreePath else None);
    var branch := Resolved(o.branch, if keep then existing.value.branch else None);
    Session(
      threadId, ref.environmentId, ref.projectId, key,
      OrElse(o.createdAt, if existing.Some? then existing.value.createdAt else now),
      OrElse(o.runtimeMode, if existing.Some? then existing.value.runtimeMode else DEFAULT_RUNTIME_MODE),
      OrElse(o.interactionMode, if existing.Some? then existing.value.interactionMode else DEFAULT_INTERACTION_MODE),
      branch, worktreePath,
      OrElse(o.envMode, if Truthy(worktreePath) then "worktree" else if keep then existing.value.envMode else "local"),
      if existing.Some? then existing.value.promotedTo else None)
  }

  function Lookup<T>(m: map<string, T>, key: string): Option<T> {
    if key in m then Some(m[key]) else None
  }

  // The draft the key pointed at before, if it is to be dropped: another draft that nothing points
  // at any more and that is not being promoted.
  function Evicted(s: Store, key: string, draftId: string): set<string> {
    if key !in s.logical then {}
    else
      var previous := s.logical[key];
      if previous == draftId || previous in AssignMapping(s.logical, key, draftId).Values then {}
      else if previous in s.sessions && Promoting(s.sessions[previous]) then {}
      else {previous}
  }

  function NextSession(s: Store, key: string, ref: ProjectRef, draftId: string, o: Options, now: string): Session {
    var existing := Lookup(s.sessions, draftId);
    var threadId := OrElse(o.threadId, if existing.Some? then existing.value.threadId else draftId);
    CreateSession(ref, threadId, key, existing, o, now)
  }

  function Upsert(s: Store, key: string, ref: ProjectRef, draftId: string, o: Options, now: string): Store {
    var evicted := Evicted(s, key, draftId);
    Store(s.drafts - evicted,
          s.sessions[draftId := NextSession(s, key, ref, draftId, o, now)] - evicted,
          AssignMapping(s.logical, key, draftId))
  }

  function SetLogicalProject(
      s: Store, logicalProjectKey: string, ref: ProjectRef, draftId: string, o: Options, now: string): Store
  {
    var key := Trim(logicalProjectKey);
    if key == "" || draftId == "" then s else Upsert(s, key, ref, draftId, o, now)
  }

  function RemoveReferences(s: Store, threadKey: string): Store {
    Store(s.drafts - {threadKey}, s.sessions - {threadKey},
          map k | k in s.logical && s.logical[k] != threadKey :: s.logical[k])
  }

  function SetContext(s: Store, threadKey: string, projectRef: Option<ProjectRef>, o: Options): Store {
    if threadKey !in s.sessions then s
    else
      var existing := s.sessions[threadKey];
      var ref := OrElse(projectRef, ProjectRef(existing.environmentId, existing.projectId));
      if ref.projectId == "" || ref.environmentId == "" then s
      else
        var changed := ref.environmentId != existing.environmentId || ref.projectId != existing.projectId;
        var worktreePath := Resolved(o.worktreePath, if changed then None else existing.worktreePath);
        var branch := Resolved(o.branch, if changed then None else existing.branch);
        var next := existing.(
          environmentId := ref.environmentId, projectId := ref.projectId,
          createdAt := if Truthy(o.createdAt) then o.createdAt.value else existing.createdAt,
          runtimeMode := OrElse(o.runtimeMode, existing.runtimeMode),
          interactionMode := OrElse(o.interactionMode, existing.interactionMode),
          branch := branch, worktreePath := worktreePath,
          envMode := OrElse(
            o.envMode, if Truthy(worktreePath) then "worktree" else if changed then "local" else existing.envMode));
        s.(sessions := s.sessions[threadKey := next])
  }

  function MarkPromoting(s: Store, threadKey: string, promotedTo: Option<ThreadRef>): Store {
    if threadKey !in s.sessions then s
    else
      var existing := s.sessions[threadKey];
      var target := OrElse(promotedTo, ThreadRef(existing.environmentId, existing.threadId));
      s.(sessions := s.sessions[threadKey := existing.(promotedTo := Some(target))])
  }

  function FinalizePromoted(s: Store, threadKey: string): Store {
    if threadKey in s.sessions && Promoting(s.sessions[threadKey]) then RemoveReferences(s, threadKey) else s
  }

  predicate BelongsTo(session: Session, ref: ProjectRef) {
    session.projectId == ref.projectId && session.environmentId == ref.environmentId
  }

  function ClearForProject(s: Store, ref: ProjectRef, threadKey: string): Store {
    if threadKey in s.sessions && BelongsTo(s.sessions[threadKey], ref) then RemoveReferences(s, threadKey) else s
  }

  // ---- Contents ----

  predicate ShouldRemove(c: Content) {
    && c.prompt == "" && c.images == [] && c.persistedAttachments == [] && c.terminalContexts == []
    && c.modelSelections == map[] && c.activeProvider.None? && c.runtimeMode.None? && c.interactionMode.None?
  }

  function ContentOf(s: Store, threadKey: string): Content {
    OrElse(Lookup(s.drafts, threadKey), EMPTY_CONTENT)
  }

  function Put(s: Store, threadKey: string, c: Content): Store {
    if ShouldRemove(c) then s.(drafts := s.drafts - {threadKey}) else s.(drafts := s.drafts[threadKey := c])
  }

  function EnsurePlaceholders(prompt: string, count: nat): string {
    var present := CountPlaceholders(prompt);
    if count <= present then prompt else seq(count - present, _ => PLACEHOLDER) + prompt
  }

  function SetPrompt(s: Store, threadKey: string, prompt: string): Store {
    Put(s, threadKey, ContentOf(s, threadKey).(prompt := prompt))
  }

  function SetContexts(s: Store, threadKey: string, threadId: string, contexts: seq<ContextDraft>): Store {
    var c := ContentOf(s, threadKey);
    var normalized := NormalizeAll(threadId, contexts);
    Put(s, threadKey, c.(prompt := EnsurePlaceholders(c.prompt, |normalized|), terminalContexts := normalized))
  }

  function InsertContext(
      s: Store, threadKey: string, threadId: string, prompt: string, context: ContextDraft, index: int): Store
  {
    var c := ContentOf(s, threadKey);
    var n := Normalize(threadId, context);
    if n.None? || !Fresh(c.terminalContexts, n.value) then s
    else
      var at := Max(0, if |c.terminalContexts| < index then |c.terminalContexts| else index);
      s.(drafts := s.drafts[threadKey :=
           c.(prompt := prompt, terminalContexts := c.terminalContexts[..at] + [n.value] + c.terminalContexts[at..])])
  }

  // What normalizing the stored contexts with more of them adds after as many as were stored.
  function Added(threadId: string, stored: seq<ContextDraft>, more: seq<ContextDraft>): seq<ContextDraft> {
    var all := NormalizeAll(threadId, stored + more);
    if |stored| <= |all| then all[|stored|..] else []
  }

  function AddContexts(s: Store, threadKey: string, threadId: string, contexts: seq<ContextDraft>): Store {
    if contexts == [] then s
    else Append(s, threadKey, Added(threadId, ContentOf(s, threadKey).terminalContexts, contexts))
  }

  function Append(s: Store, threadKey: string, accepted: seq<ContextDraft>): Store {
    var c := ContentOf(s, threadKey);
    if accepted == [] then s
    else
      s.(drafts := s.drafts[threadKey :=
           c.(prompt := EnsurePlaceholders(c.prompt, |c.terminalContexts| + |accepted|),
              terminalContexts := c.terminalContexts + accepted)])
  }

  function Without(cs: seq<ContextDraft>, id: string): seq<ContextDraft> {
    if cs == [] then [] else (if cs[0].id != id then [cs[0]] else []) + Without(cs[1..], id)
  }

  function RemoveContext(s: Store, threadKey: string, id: string): Store {
    if id == "" || threadKey !in s.drafts then s
    else Put(s, threadKey, s.drafts[threadKey].(terminalContexts := Without(s.drafts[threadKey].terminalContexts, id)))
  }

  function ClearContexts(s: Store, threadKey: string): Store {
    if threadKey !in s.drafts || s.drafts[threadKey].terminalContexts == [] then s
    else Put(s, threadKey, s.drafts[threadKey].(terminalContexts := []))
  }

  // ---- Actions ----

  datatype Action =
    | DoSetLogicalProject(logicalProjectKey: string, ref: ProjectRef, draftId: string, options: Options, now: string)
    | DoSetContext(threadKey: string, projectRef: Option<ProjectRef>, options: Options)
    | DoClearForProject(ref: ProjectRef, threadKey: string)
    | DoMarkPromoting(threadKey: string, promotedTo: Option<ThreadRef>)
    | DoFinalizePromoted(threadKey: string)
    | DoClear(threadKey: string)
    | DoSetPrompt(threadKey: string, prompt: string)
    | DoSetContexts(threadKey: string, threadId: string, contexts: seq<ContextDraft>)
    | DoInsertContext(threadKey: string, threadId: string, prompt: string, context: ContextDraft, index: int)
    | DoAddContexts(threadKey: string, threadId: string, contexts: seq<ContextDraft>)
    | DoRemoveContext(threadKey: string, id: string)
    | DoClearContexts(threadKey: string)

  function Apply(s: Store, a: Action): Store {
    match a
    case DoSetLogicalProject(key, ref, draftId, o, now) => SetLogicalProject(s, key, ref, draftId, o, now)
    case DoSetContext(k, ref, o) => SetContext(s, k, ref, o)
    case DoClearForProject(ref, k) => ClearForProject(s, ref, k)
    case DoMarkPromoting(k, ref) => MarkPromoting(s, k, ref)
    case DoFinalizePromoted(k) => FinalizePromoted(s, k)
    case DoClear(k) => RemoveReferences(s, k)
    case DoSetPrompt(k, prompt) => SetPrompt(s, k, prompt)
    case DoSetContexts(k, threadId, cs) => SetContexts(s, k, threadId, cs)
    case DoInsertContext(k, threadId, prompt, c, index) => InsertContext(s, k, threadId, prompt, c, index)
    case DoAddContexts(k, threadId, cs) => AddContexts(s, k, threadId, cs)
    case DoRemoveContext(k, id) => RemoveContext(s, k, id)
    case DoClearContexts(k) => ClearContexts(s, k)
  }

  function ApplyAll(s: Store, actions: seq<Action>): Store
    decreases |actions|
  {
    if actions == [] then s else Apply(ApplyAll(s, actions[..|actions| - 1]), actions[|actions| - 1])
  }

  // ---- Consistency ----

  ghost predicate Injective(m: map<string, string>) {
    forall j, k :: j in m && k in m && m[j] == m[k] ==> j == k
  }

  ghost predicate Consistent(s: Store) {
    && Injective(s.logical)
    && (forall k :: k in s.logical ==> s.logical[k] in s.sessions && s.sessions[s.logical[k]].logicalProjectKey == k)
    && (forall d :: d in s.sessions && d !in s.logical.Values ==> Promoting(s.sessions[d]))
  }

  ghost predicate ContextsStored(s: Store) {
    forall k :: k in s.drafts ==> Stored(s.drafts[k].terminalContexts)
  }

  lemma MappedIsValue(m: map<string, string>, k: string)
    requires k in m
    ensures m[k] in m.Values
  {
  }

  lemma SurvivingMapping(m: map<string, string>, k: string, key: string, draftId: string)
    requires k in m && k != key && m[k] != draftId
    ensures m[k] in AssignMapping(m, key, draftId).Values
  {
    MappedIsValue(AssignMapping(m, key, draftId), k);
  }

  lemma UpsertKeepsConsistent(s: Store, key: string, ref: ProjectRef, draftId: string, o: Options, now: string)
    requires Consistent(s)
    ensures Consistent(Upsert(s, key, ref, draftId, o, now))
  {
    var s' := Upsert(s, key, ref, draftId, o, now);
    var evicted := Evicted(s, key, draftId);
    forall k | k in s'.logical
        ensures s'.logical[k] in s'.sessions && s'.sessions[s'.logical[k]].logicalProjectKey == k {
      MappedIsValue(s'.logical, k);
      assert s'.logical[k] !in evicted;
    }
    forall d | d in s'.sessions && d !in s'.logical.Values ensures Promoting(s'.sessions[d]) {
      MappedIsValue(s'.logical, key);
      assert d != draftId && d in s.sessions;
      if d in s.logical.Values {
        var k :| k in s.logical && s.logical[k] == d;
        if k != key {
          SurvivingMapping(s.logical, k, key, draftId);
        }
        assert d !in evicted;
      }
    }
  }

  lemma RemoveKeepsConsistent(s: Store, threadKey: string)
    requires Consistent(s)
    ensures Consistent(RemoveReferences(s, threadKey))
  {
    var s' := RemoveReferences(s, threadKey);
    forall d | d in s'.sessions && d !in s'.logical.Values ensures Promoting(s'.sessions[d]) {
      if d in s.logical.Values {
        var k :| k in s.logical && s.logical[k] == d;
        MappedIsValue(s'.logical, k);
        assert false;
      }
    }
  }

  // Replacing a session without touching its logical key or taking back a promotion is harmless.
  lemma EditKeepsConsistent(s: Store, threadKey: string, next: Session)
    requires Consistent(s) && threadKey in s.sessions
    requires next.logicalProjectKey == s.sessions[threadKey].logicalProjectKey
    requires Promoting(s.sessions[threadKey]) ==> Promoting(next)
    ensures Consistent(s.(sessions := s.sessions[threadKey := next]))
  {
  }

  lemma StepKeepsConsistent(s: Store, a: Action)
    requires Consistent(s)
    ensures Consistent(Apply(s, a))
  {
    match a
    case DoSetLogicalProject(key, ref, draftId, o, now) => UpsertKeepsConsistent(s, Trim(key), ref, draftId, o, now);
    case DoSetContext(k, ref, o) =>
      if k in s.sessions {
        EditKeepsConsistent(s, k, Apply(s, a).sessions[k]);
      }
    case DoMarkPromoting(k, ref) =>
      if k in s.sessions {
        EditKeepsConsistent(s, k, Apply(s, a).sessions[k]);
      }
    case DoClearForProject(_, k) => RemoveKeepsConsistent(s, k);
    case DoFinalizePromoted(k) => RemoveKeepsConsistent(s, k);
    case DoClear(k) => RemoveKeepsConsistent(s, k);
    case _ =>
  }

  // From an empty store, whatever sequence of actions was taken, the three maps agree.
  lemma {:induction false} RunsStayConsistent(actions: seq<Action>)
    ensures Consistent(ApplyAll(EMPTY_STORE, actions))
    decreases |actions|
  {
    if actions == [] {
    } else {
      RunsStayConsistent(actions[..|actions| - 1]);
      StepKeepsConsistent(ApplyAll(EMPTY_STORE, actions[..|actions| - 1]), actions[|actions| - 1]);
    }
  }

  // So a session that is not being promoted is the current draft of exactly one logical project,
  // the one it names.
  lemma UnpromotedHasOneProject(actions: seq<Action>, d: string)
    requires d in ApplyAll(EMPTY_STORE, actions).sessions
    requires !Promoting(ApplyAll(EMPTY_STORE, actions).sessions[d])
    ensures var s := ApplyAll(EMPTY_STORE, actions);
            forall k :: k in s.logical && s.logical[k] == d <==> k == s.sessions[d].logicalProjectKey
  {
    RunsStayConsistent(actions);
    var s := ApplyAll(EMPTY_STORE, actions);
    assert d in s.logical.Values;
    var k :| k in s.logical && s.logical[k] == d;
  }

  // ---- What an upsert does to everything else ----

  // Only an unpromoted draft that lost its project is dropped, with its content; every other
  // session and content is untouched.
  lemma UpsertTouchesOnlyTwoDrafts(
      s: Store, key: string, ref: ProjectRef, draftId: string, o: Options, now: string, d: string)
    requires Consistent(s) && d != draftId
    ensures var s' := Upsert(s, key, ref, draftId, o, now);
            if d in s.sessions && !Promoting(s.sessions[d]) && s.sessions[d].logicalProjectKey == key
            then d !in s'.sessions && d !in s'.drafts
            else Lookup(s'.sessions, d) == Lookup(s.sessions, d) && Lookup(s'.drafts, d) == Lookup(s.drafts, d)
  {
    var s' := Upsert(s, key, ref, draftId, o, now);
    var m := AssignMapping(s.logical, key, draftId);
    if d in m.Values {
      var k :| k in m && m[k] == d;
      assert k in s.logical && s.logical[k] == d && k != key;
    } else if d in s.sessions && !Promoting(s.sessions[d]) && s.sessions[d].logicalProjectKey == key {
      assert d in s.logical.Values;
      var k :| k in s.logical && s.logical[k] == d;
      assert k == key;
    }
  }

  function DraftForProject(s: Store, key: string): Option<(string, Session)> {
    if key !in s.logical || s.logical[key] !in s.sessions || Promoting(s.sessions[s.logical[key]]) then None
    else Some((s.logical[key], s.sessions[s.logical[key]]))
  }

  // After an upsert the project finds the draft it was given, unless that draft is already being
  // promoted; another project keeps its draft unless it was the very one handed over.
  lemma UpsertThenLookup(
      s: Store, key: string, ref: ProjectRef, draftId: string, o: Options, now: string, other: string)
    requires Consistent(s) && other != key
    ensures var s' := Upsert(s, key, ref, draftId, o, now);
            && DraftForProject(s', key) == (if draftId in s.sessions && Promoting(s.sessions[draftId]) then None
                                            else Some((draftId, NextSession(s, key, ref, draftId, o, now))))
            && DraftForProject(s', other) == (if Lookup(s.logical, other) == Some(draftId) then None
                                              else DraftForProject(s, other))
  {
    var s' := Upsert(s, key, ref, draftId, o, now);
    MappedIsValue(s'.logical, key);
    if other in s'.logical {
      MappedIsValue(s'.logical, other);
    }
  }

  lemma NextSessionIsStable(
      s: Store, s': Store, key: string, ref: ProjectRef, draftId: string, o: Options, now: string, later: string)
    requires Lookup(s'.sessions, draftId) == Some(NextSession(s, key, ref, draftId, o, now))
    ensures NextSession(s', key, ref, draftId, o, later) == NextSession(s, key, ref, draftId, o, now)
  {
  }

  // Asking for the same draft again changes nothing.
  lemma UpsertIsIdempotent(
      s: Store, key: string, ref: ProjectRef, draftId: string, o: Options, now: string, later: string)
    requires Consistent(s)
    ensures var s' := Upsert(s, key, ref, draftId, o, now);
            Upsert(s', key, ref, draftId, o, later) == s'
  {
    var s' := Upsert(s, key, ref, draftId, o, now);
    MappedIsValue(s'.logical, key);
    assert draftId !in Evicted(s, key, draftId);
    UpsertKeepsConsistent(s, key, ref, draftId, o, now);
    assert Evicted(s', key, draftId) == {};
    NextSessionIsStable(s, s', key, ref, draftId, o, now, later);
    assert AssignMapping(s'.logical, key, draftId) == s'.logical;
  }

  // ---- Terminal contexts over whole runs ----

  lemma {:induction false} WithoutMembers(cs: seq<ContextDraft>, id: string)
    ensures forall c :: c in Without(cs, id) <==> c in cs && c.id != id
  {
    if cs == [] {
    } else {
      assert cs == [cs[0]] + cs[1..];
      WithoutMembers(cs[1..], id);
    }
  }

  lemma {:induction false} WithoutKeepsStored(cs: seq<ContextDraft>, id: string)
    requires Stored(cs)
    ensures Stored(Without(cs, id))
  {
    if cs == [] {
    } else {
      assert forall c :: c in cs[1..] ==> c in cs;
      WithoutKeepsStored(cs[1..], id);
      WithoutMembers(cs[1..], id);
      HeadIsApart(cs);
      ConsKeepsStored(cs[0], Without(cs[1..], id));
    }
  }

  lemma HeadIsApart(cs: seq<ContextDraft>)
    requires Stored(cs) && cs != []
    ensures Stored(cs[1..]) && WellFormed(cs[0])
    ensures forall c :: c in cs[1..] ==> c.id != cs[0].id && DedupKey(c) != DedupKey(cs[0])
  {
    assert cs[0] in cs && forall c :: c in cs[1..] ==> c in cs;
  }

  lemma ConsKeepsStored(c: ContextDraft, rest: seq<ContextDraft>)
    requires Stored(rest) && WellFormed(c)
    requires forall r :: r in rest ==> r.id != c.id && DedupKey(r) != DedupKey(c)
    ensures Stored([c] + rest)
  {
    assert forall i :: 0 <= i < |rest| ==> rest[i] in rest;
  }

  lemma InsertKeepsStored(cs: seq<ContextDraft>, c: ContextDraft, at: nat)
    requires Stored(cs) && WellFormed(c) && Fresh(cs, c) && at <= |cs|
    ensures Stored(cs[..at] + [c] + cs[at..])
  {
    var r := cs[..at] + [c] + cs[at..];
    assert forall x :: x in r ==> x in cs || x == c;
    assert forall i :: 0 <= i < |cs| ==> cs[i] in cs;
    InsertKeepsApart(cs, c, at, (x: ContextDraft) => x.id);
    InsertKeepsApart(cs, c, at, DedupKey);
  }

  ghost predicate Apart(cs: seq<ContextDraft>, key: ContextDraft -> string) {
    forall i, j :: 0 <= i < j < |cs| ==> key(cs[i]) != key(cs[j])
  }

  lemma InsertKeepsApart(cs: seq<ContextDraft>, c: ContextDraft, at: nat, key: ContextDraft -> string)
    requires Apart(cs, key) && at <= |cs|
    requires forall i :: 0 <= i < |cs| ==> key(cs[i]) != key(c)
    ensures Apart(cs[..at] + [c] + cs[at..], key)
  {
    var r := cs[..at] + [c] + cs[at..];
    assert forall i :: 0 <= i < |r| ==> r[i] == if i < at then cs[i] else if i == at then c else cs[i - 1];
  }

  lemma ContentStored(s: Store, k: string)
    requires ContextsStored(s)
    ensures Stored(ContentOf(s, k).terminalContexts)
  {
  }

  lemma InsertContextKeepsStored(s: Store, k: string, threadId: string, prompt: string, c: ContextDraft, index: int)
    requires ContextsStored(s)
    ensures ContextsStored(InsertContext(s, k, threadId, prompt, c, index))
  {
    ContentStored(s, k);
    var existing := ContentOf(s, k).terminalContexts;
    var n := Normalize(threadId, c);
    if n.Some? && Fresh(existing, n.value) {
      NormalizedIsWellFormed(threadId, c);
      InsertKeepsStored(existing, n.value, Max(0, if |existing| < index then |existing| else index));
    }
  }

  lemma AddContextsKeepsStored(s: Store, k: string, threadId: string, cs: seq<ContextDraft>)
    requires ContextsStored(s)
    ensures ContextsStored(AddContexts(s, k, threadId, cs))
  {
    ContentStored(s, k);
    SliceSelectsAcceptedNew(threadId, ContentOf(s, k).terminalContexts, cs);
  }

  lemma PutKeepsStored(s: Store, k: string, c: Content)
    requires ContextsStored(s) && Stored(c.terminalContexts)
    ensures ContextsStored(Put(s, k, c))
  {
  }

  lemma StepKeepsContextsStored(s: Store, a: Action)
    requires ContextsStored(s)
    ensures ContextsStored(Apply(s, a))
  {
    match a
    case DoSetPrompt(k, prompt) =>
      ContentStored(s, k);
      PutKeepsStored(s, k, ContentOf(s, k).(prompt := prompt));
    case DoSetContexts(k, threadId, cs) =>
      AcceptKeepsStored(threadId, [], cs);
      var c := ContentOf(s, k);
      var normalized := NormalizeAll(threadId, cs);
      PutKeepsStored(s, k, c.(prompt := EnsurePlaceholders(c.prompt, |normalized|), terminalContexts := normalized));
    case DoInsertContext(k, threadId, prompt, c, index) => InsertContextKeepsStored(s, k, threadId, prompt, c, index);
    case DoAddContexts(k, threadId, cs) => AddContextsKeepsStored(s, k, threadId, cs);
    case DoRemoveContext(k, id) =>
      if k in s.drafts {
        WithoutKeepsStored(s.drafts[k].terminalContexts, id);
        PutKeepsStored(s, k, s.drafts[k].(terminalContexts := Without(s.drafts[k].terminalContexts, id)));
      }
    case DoClearContexts(k) =>
    case _ =>
  }

  // From an empty store, stored contexts are always well formed, with distinct ids and ranges, and
  // adding to them keeps them and appends exactly the new ones that clash with nothing.
  lemma {:induction false} RunsKeepContextsStored(actions: seq<Action>)
    ensures ContextsStored(ApplyAll(EMPTY_STORE, actions))
    decreases |actions|
  {
    if actions == [] {
    } else {
      RunsKeepContextsStored(actions[..|actions| - 1]);
      StepKeepsContextsStored(ApplyAll(EMPTY_STORE, actions[..|actions| - 1]), actions[|actions| - 1]);
    }
  }

  lemma AddAppendsAccepted(actions: seq<Action>, k: string, threadId: string, cs: seq<ContextDraft>)
    ensures var s := ApplyAll(EMPTY_STORE, actions);
            var before := ContentOf(s, k).terminalContexts;
            ContentOf(AddContexts(s, k, threadId, cs), k).terminalContexts
            == before + AcceptedNew(threadId, before, cs)
  {
    RunsKeepContextsStored(actions);
    var s := ApplyAll(EMPTY_STORE, actions);
    var before := ContentOf(s, k).terminalContexts;
    SliceSelectsAcceptedNew(threadId, before, cs);
    assert before + [] == before;
    if cs == [] {
      assert AcceptedNew(threadId, before, cs) == [];
    }
  }

  lemma {:induction false} CountOfPadded(n: nat, prompt: string)
    ensures CountPlaceholders(seq(n, _ => PLACEHOLDER) + prompt) == n + CountPlaceholders(prompt)
  {
    var s := seq(n, _ => PLACEHOLDER) + prompt;
    if n > 0 {
      assert s[1..] == seq(n - 1, _ => PLACEHOLDER) + prompt;
      CountOfPadded(n - 1, prompt);
    } else {
      assert s == prompt;
    }
  }

  // A prompt is padded to have a placeholder for each context and otherwise left alone.
  lemma EveryContextHasPlaceholder(prompt: string, count: nat)
    ensures var padded := EnsurePlaceholders(prompt, count);
            && CountPlaceholders(padded) ==
                  (if CountPlaceholders(prompt) < count then count else CountPlaceholders(prompt))
            && |prompt| <= |padded| && padded[|padded| - |prompt|..] == prompt
  {
    if CountPlaceholders(prompt) < count {
      CountOfPadded(count - CountPlaceholders(prompt), prompt);
    }
  }
}
