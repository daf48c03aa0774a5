// The store object: each action resolves its target and replaces the maps it changes.
module DraftStoreObject {
  import opened Text
  import opened TerminalContexts
  import opened DraftStore

  // A draft session by id, or a server thread.
  datatype Target = ByDraft(draftId: string) | ByThread(ref: ThreadRef)

  function ScopedThreadKey(ref: ThreadRef): string {
    ref.environmentId + ":" + ref.threadId
  }

  predicate IsThread(session: Session, ref: ThreadRef) {
    session.environmentId == ref.environmentId && session.threadId == ref.threadId
  }

  // ---- The order in which the sessions are held ----

  // The keys of the sessions, each once, in the order in which they were put in.
  ghost predicate Lists(order: seq<string>, sessions: map<string, Session>) {
    (forall k :: k in order <==> k in sessions) && NoRepeats(order)
  }

  ghost predicate NoRepeats(order: seq<string>) {
    forall i, j :: 0 <= i < j < |order| ==> order[i] != order[j]
  }

  // The first key in order whose session passes the test.
  function FirstSuch(order: seq<string>, sessions: map<string, Session>, test: Session -> bool): Option<string> {
    if order == [] then None
    else if order[0] in sessions && test(sessions[order[0]]) then Some(order[0])
    else FirstSuch(order[1..], sessions, test)
  }

  lemma {:induction false} FirstSuchIsFirst(order: seq<string>, sessions: map<string, Session>, test: Session -> bool)
    ensures var first := FirstSuch(order, sessions, test);
            && (first.None? ==> forall k :: k in order && k in sessions ==> !test(sessions[k]))
            && (first.Some? ==>
                  exists i :: 0 <= i < |order| && order[i] == first.value && IsFirst(order, sessions, test, i))
  {
    if order == [] {
    } else if order[0] in sessions && test(sessions[order[0]]) {
      assert IsFirst(order, sessions, test, 0);
    } else {
      var rest := order[1..];
      FirstSuchIsFirst(rest, sessions, test);
      assert order == [order[0]] + rest;
      var first := FirstSuch(rest, sessions, test);
      if first.Some? {
        var i :| 0 <= i < |rest| && rest[i] == first.value && IsFirst(rest, sessions, test, i);
        assert forall j :: 0 < j <= i ==> order[j] == rest[j - 1];
        assert order[i + 1] == first.value && IsFirst(order, sessions, test, i + 1);
      }
    }
  }

  // The session at i passes the test, and none before it does.
  ghost predicate IsFirst(order: seq<string>, sessions: map<string, Session>, test: Session -> bool, i: nat) {
    && i < |order| && order[i] in sessions && test(sessions[order[i]])
    && forall j :: 0 <= j < i && order[j] in sessions ==> !test(sessions[order[j]])
  }

  // The keys that are left when sessions are deleted.
  function Remaining(order: seq<string>, sessions: map<string, Session>): seq<string> {
    if order == [] then []
    else (if order[0] in sessions then [order[0]] else []) + Remaining(order[1..], sessions)
  }

  lemma {:induction false} RemainingKeys(order: seq<string>, sessions: map<string, Session>)
    requires NoRepeats(order)
    ensures NoRepeats(Remaining(order, sessions))
    ensures forall k :: k in Remaining(order, sessions) <==> k in order && k in sessions
  {
    if order == [] {
    } else {
      RemainingKeys(order[1..], sessions);
      assert order == [order[0]] + order[1..];
      assert order[0] !in order[1..];
    }
  }

  lemma {:induction false} AllRemain(order: seq<string>, sessions: map<string, Session>)
    requires forall k :: k in order ==> k in sessions
    ensures Remaining(order, sessions) == order
  {
    if order == [] {
    } else {
      assert order == [order[0]] + order[1..];
      assert order[0] in order && forall k :: k in order[1..] ==> k in order;
      AllRemain(order[1..], sessions);
    }
  }

  function WithKey(order: seq<string>, key: string): seq<string> {
    if key in order then order else order + [key]
  }

  lemma {:induction false} RemainingSnoc(order: seq<string>, key: string, sessions: map<string, Session>)
    ensures Remaining(order + [key], sessions) == Remaining(order, sessions) + (if key in sessions then [key] else [])
    decreases |order|
  {
    if order == [] {
      assert order + [key] == [key] && [key][1..] == [];
    } else {
      assert (order + [key])[1..] == order[1..] + [key];
      RemainingSnoc(order[1..], key, sessions);
    }
  }

  // The sessions that stay keep their order, and a new one comes behind them.
  lemma NewSessionIsLast(order: seq<string>, key: string, next: map<string, Session>)
    ensures Remaining(WithKey(order, key), next) ==
              Remaining(order, next) + (if key !in order && key in next then [key] else [])
  {
    if key !in order {
      RemainingSnoc(order, key, next);
    }
  }

  // Putting in one session at most and deleting others keeps the listing.
  lemma RemainingLists(order: seq<string>, sessions: map<string, Session>, key: string, next: map<string, Session>)
    requires Lists(order, sessions) && forall k :: k in next ==> k in sessions || k == key
    ensures Lists(Remaining(WithKey(order, key), next), next)
  {
    assert NoRepeats(WithKey(order, key));
    RemainingKeys(WithKey(order, key), next);
  }

  class ComposerDraftStore {
    var draftsByThreadKey: map<string, Content>
    var draftThreadsByThreadKey: map<string, Session>
    var logicalProjectDraftThreadKeyByLogicalProjectKey: map<string, string>
    var draftThreadKeys: seq<string>   // the keys of draftThreadsByThreadKey in insertion order

    ghost predicate Valid()
      reads this
    {
      Lists(draftThreadKeys, draftThreadsByThreadKey)
    }

    function State(): Store
      reads this
    {
      Store(draftsByThreadKey, draftThreadsByThreadKey, logicalProjectDraftThreadKeyByLogicalProjectKey)
    }

    // The storage key a target stands for. A thread without content of its own stands for the first
    // draft session with its identity, if there is one.
    function KeyOf(target: Target): Option<string>
      reads this
    {
      match target
      case ByDraft(id) => if Trim(id) == "" then None else Some(Trim(id))
      case ByThread(ref) =>
        var scopedKey := ScopedThreadKey(ref);
        if scopedKey in draftsByThreadKey then Some(scopedKey)
        else Some(OrElse(FirstSuch(draftThreadKeys, draftThreadsByThreadKey, s => IsThread(s, ref)), scopedKey))
    }

    // The thread a target's contexts belong to; an empty id counts as none.
    function ThreadOf(target: Target): Option<string>
      reads this
    {
      match target
      case ByThread(ref) => if ref.threadId == "" then None else Some(ref.threadId)
      case ByDraft(id) =>
        if Trim(id) in draftThreadsByThreadKey && Trim(id) != "" && draftThreadsByThreadKey[Trim(id)].threadId != ""
        then Some(draftThreadsByThreadKey[Trim(id)].threadId)
        else None
    }

    ghost predicate HasSession(ref: ThreadRef)
      reads this
    {
      exists k :: k in draftThreadsByThreadKey && draftThreadsByThreadKey[k].environmentId == ref.environmentId
                  && draftThreadsByThreadKey[k].threadId == ref.threadId
    }

    // A thread stands for itself if it has content, or if no draft session has its identity; otherwise for a
    // session that has it. Its contexts belong to it. A draft stands for itself, and its contexts belong to
    // the thread of its session.
    lemma TargetsStandFor(ref: ThreadRef, draftId: string)
      requires Valid()
      ensures var key, own := KeyOf(ByThread(ref)), ref.environmentId + ":" + ref.threadId;
              if own in draftsByThreadKey || !HasSession(ref) then key == Some(own)
              else
                && key.Some? && key.value in draftThreadsByThreadKey
                && draftThreadsByThreadKey[key.value].environmentId == ref.environmentId
                && draftThreadsByThreadKey[key.value].threadId == ref.threadId
      ensures ThreadOf(ByThread(ref)) == if ref.threadId == "" then None else Some(ref.threadId)
      ensures KeyOf(ByDraft(draftId)) == if Trim(draftId) == "" then None else Some(Trim(draftId))
      ensures draftId in draftThreadsByThreadKey && Trim(draftId) == draftId != "" ==>
                var threadId := draftThreadsByThreadKey[draftId].threadId;
                ThreadOf(ByDraft(draftId)) == if threadId == "" then None else Some(threadId)
    {
      FirstSuchIsFirst(draftThreadKeys, draftThreadsByThreadKey, s => IsThread(s, ref));
    }

    constructor ()
      ensures Valid() && State() == EMPTY_STORE && draftThreadKeys == []
    {
      draftsByThreadKey := map[];
      draftThreadsByThreadKey := map[];
      logicalProjectDraftThreadKeyByLogicalProjectKey := map[];
      draftThreadKeys := [];
    }

    method FindFirst(test: Session -> bool) returns (key: Option<string>)
      ensures key == FirstSuch(draftThreadKeys, draftThreadsByThreadKey, test)
    {
      assert draftThreadKeys[0..] == draftThreadKeys;
      for i := 0 to |draftThreadKeys|
        invariant FirstSuch(draftThreadKeys[i..], draftThreadsByThreadKey, test)
               == FirstSuch(draftThreadKeys, draftThreadsByThreadKey, test)
      {
        assert draftThreadKeys[i..][1..] == draftThreadKeys[i + 1..];
        var k := draftThreadKeys[i];
        if k in draftThreadsByThreadKey && test(draftThreadsByThreadKey[k]) {
          return Some(k);
        }
      }
      return None;
    }

    method ResolveKey(target: Target) returns (key: Option<string>)
      ensures key == KeyOf(target)
    {
      match target
      case ByDraft(id) =>
        return if Trim(id) == "" then None else Some(Trim(id));
      case ByThread(ref) =>
        var scopedKey := ScopedThreadKey(ref);
        if scopedKey in draftsByThreadKey {
          return Some(scopedKey);
        }
        var first := FindFirst(s => IsThread(s, ref));
        return Some(OrElse(first, scopedKey));
    }

    method SetLogicalProjectDraftThreadId(
        logicalProjectKey: string, ref: ProjectRef, draftId: string, o: Options, now: string)
      requires Valid()
      modifies this
      ensures Valid() && State() == SetLogicalProject(old(State()), logicalProjectKey, ref, draftId, o, now)
      ensures draftThreadKeys == (if Trim(logicalProjectKey) == "" || draftId == "" then old(draftThreadKeys)
                                  else Remaining(WithKey(old(draftThreadKeys), draftId), draftThreadsByThreadKey))
    {
      var key := Trim(logicalProjectKey);
      if key == "" || draftId == "" {
        return;
      }
      var state := State();
      var nextSession := NextSession(state, key, ref, draftId, o, now);
      var mappings, removedAlias := AssignLogicalProjectDraftMapping(state.logical, key, draftId);
      if Lookup(state.logical, key) == Some(draftId) && !removedAlias &&
          Lookup(state.sessions, draftId) == Some(nextSession) {
        UnchangedUpsert(state, key, ref, draftId, o, now);
        AllRemain(draftThreadKeys, draftThreadsByThreadKey);
        return;
      }
      var sessions := state.sessions[draftId := nextSession];
      var drafts := state.drafts;
      if key in state.logical {
        var previous := state.logical[key];
        var canEvict := !(previous in state.sessions && Promoting(state.sessions[previous]));
        if canEvict && previous != draftId && previous !in mappings.Values {
          sessions := sessions - {previous};
          drafts := drafts - {previous};
        }
      }
      Replace(Store(drafts, sessions, mappings), draftId);
    }

    // Replaces the three maps; at most one key is new among the sessions, and it is put in last.
    method Replace(next: Store, key: string)
      requires Valid() && forall k :: k in next.sessions ==> k in draftThreadsByThreadKey || k == key
      modifies this
      ensures Valid() && State() == next
      ensures draftThreadKeys == Remaining(WithKey(old(draftThreadKeys), key), next.sessions)
    {
      RemainingLists(draftThreadKeys, draftThreadsByThreadKey, key, next.sessions);
      draftThreadKeys := Remaining(WithKey(draftThreadKeys, key), next.sessions);
      draftsByThreadKey := next.drafts;
      draftThreadsByThreadKey := next.sessions;
      logicalProjectDraftThreadKeyByLogicalProjectKey := next.logical;
    }

    // Deletes every reference to a key from the three maps.
    method RemoveDraftThreadReferences(threadKey: string)
      requires Valid()
      modifies this
      ensures Valid() && State() == RemoveReferences(old(State()), threadKey)
      ensures draftThreadKeys == Remaining(old(draftThreadKeys), draftThreadsByThreadKey)
    {
      var mappings := logicalProjectDraftThreadKeyByLogicalProjectKey;
      draftsByThreadKey := draftsByThreadKey - {threadKey};
      draftThreadsByThreadKey := draftThreadsByThreadKey - {threadKey};
      logicalProjectDraftThreadKeyByLogicalProjectKey :=
        map k | k in mappings && mappings[k] != threadKey :: mappings[k];
      RemainingKeys(draftThreadKeys, draftThreadsByThreadKey);
      draftThreadKeys := Remaining(draftThreadKeys, draftThreadsByThreadKey);
    }

    method SetDraftThreadContext(target: Target, projectRef: Option<ProjectRef>, o: Options)
      requires Valid()
      modifies this`draftThreadsByThreadKey
      ensures Valid()
      ensures State() == match old(KeyOf(target))
                         case None => old(State())
                         case Some(key) => SetContext(old(State()), key, projectRef, o)
    {
      var threadKey := ResolveKey(target);
      if threadKey.None? || threadKey.value !in draftThreadsByThreadKey {
        return;
      }
      var key := threadKey.value;
      var existing := draftThreadsByThreadKey[key];
      var ref := OrElse(projectRef, ProjectRef(existing.environmentId, existing.projectId));
      if ref.projectId == "" || ref.environmentId == "" {
        return;
      }
      var projectChanged := ref.environmentId != existing.environmentId || ref.projectId != existing.projectId;
      var worktreePath := Resolved(o.worktreePath, if projectChanged then None else existing.worktreePath);
      var branch := Resolved(o.branch, if projectChanged then None else existing.branch);
      var envMode := OrElse(
        o.envMode, if Truthy(worktreePath) then "worktree" else if projectChanged then "local" else existing.envMode);
      var next := existing.(
        environmentId := ref.environmentId, projectId := ref.projectId, branch := branch, worktreePath := worktreePath,
        createdAt := if Truthy(o.createdAt) then o.createdAt.value else existing.createdAt,
        runtimeMode := OrElse(o.runtimeMode, existing.runtimeMode),
        interactionMode := OrElse(o.interactionMode, existing.interactionMode),
        envMode := envMode);
      if next == existing {
        assert draftThreadsByThreadKey[key := existing] == draftThreadsByThreadKey;
        return;
      }
      draftThreadsByThreadKey := draftThreadsByThreadKey[key := next];
    }

    // Clears the first session of the project, if it has any.
    method ClearProjectDraftThreadId(ref: ProjectRef)
      requires Valid()
      modifies this
      ensures Valid()
      ensures State() == match FirstSuch(old(draftThreadKeys), old(draftThreadsByThreadKey), s => BelongsTo(s, ref))
                         case None => old(State())
                         case Some(key) => RemoveReferences(old(State()), key)
      ensures draftThreadKeys == Remaining(old(draftThreadKeys), draftThreadsByThreadKey)
    {
      AllRemain(draftThreadKeys, draftThreadsByThreadKey);
      var matching := FindFirst(s => BelongsTo(s, ref));
      if matching.Some? {
        RemoveDraftThreadReferences(matching.value);
      }
    }

    method ClearProjectDraftThreadById(ref: ProjectRef, target: Target)
      requires Valid()
      modifies this
      ensures Valid()
      ensures State() == match old(KeyOf(target))
                         case None => old(State())
                         case Some(key) => ClearForProject(old(State()), ref, key)
      ensures draftThreadKeys == Remaining(old(draftThreadKeys), draftThreadsByThreadKey)
    {
      AllRemain(draftThreadKeys, draftThreadsByThreadKey);
      var threadKey := ResolveKey(target);
      if threadKey.Some? && threadKey.value in draftThreadsByThreadKey &&
          BelongsTo(draftThreadsByThreadKey[threadKey.value], ref) {
        RemoveDraftThreadReferences(threadKey.value);
      }
    }

    method MarkDraftThreadPromoting(target: Target, promotedTo: Option<ThreadRef>)
      requires Valid()
      modifies this`draftThreadsByThreadKey
      ensures Valid()
      ensures State() == match old(KeyOf(target))
                         case None => old(State())
                         case Some(key) => MarkPromoting(old(State()), key, promotedTo)
    {
      var threadKey := ResolveKey(target);
      if threadKey.None? || threadKey.value !in draftThreadsByThreadKey {
        return;
      }
      var existing := draftThreadsByThreadKey[threadKey.value];
      var next := Some(OrElse(promotedTo, ThreadRef(existing.environmentId, existing.threadId)));
      if existing.promotedTo == next {
        assert draftThreadsByThreadKey[threadKey.value := existing.(promotedTo := next)] == draftThreadsByThreadKey;
        return;
      }
      draftThreadsByThreadKey := draftThreadsByThreadKey[threadKey.value := existing.(promotedTo := next)];
    }

    method FinalizePromotedDraftThread(target: Target)
      requires Valid()
      modifies this
      ensures Valid()
      ensures State() == match old(KeyOf(target))
                         case None => old(State())
                         case Some(key) => FinalizePromoted(old(State()), key)
      ensures draftThreadKeys == Remaining(old(draftThreadKeys), draftThreadsByThreadKey)
    {
      AllRemain(draftThreadKeys, draftThreadsByThreadKey);
      var threadKey := ResolveKey(target);
      if threadKey.Some? && threadKey.value in draftThreadsByThreadKey &&
          Promoting(draftThreadsByThreadKey[threadKey.value]) {
        RemoveDraftThreadReferences(threadKey.value);
      }
    }

    method ClearDraftThread(target: Target)
      requires Valid()
      modifies this
      ensures Valid()
      ensures State() == match old(KeyOf(target))
                         case None => old(State())
                         case Some(key) => RemoveReferences(old(State()), key)
      ensures draftThreadKeys == Remaining(old(draftThreadKeys), draftThreadsByThreadKey)
    {
      AllRemain(draftThreadKeys, draftThreadsByThreadKey);
      var threadKey := ResolveKey(target);
      if threadKey.Some? {
        RemoveDraftThreadReferences(threadKey.value);
      }
    }

    method SetTerminalContexts(target: Target, contexts: seq<ContextDraft>)
      requires Valid()
      modifies this`draftsByThreadKey
      ensures State() == if old(KeyOf(target)).Some? && old(ThreadOf(target)).Some?
                         then SetContexts(old(State()), old(KeyOf(target)).value, old(ThreadOf(target)).value, contexts)
                         else old(State())
    {
      var threadKey := ResolveKey(target);
      var threadId := ThreadOf(target);
      if threadKey.None? || threadId.None? {
        return;
      }
      var normalized := NormalizeTerminalContextsForThread(threadId.value, contexts);
      var existing := ContentOf(State(), threadKey.value);
      var next := existing.(
        prompt := EnsurePlaceholders(existing.prompt, |normalized|), terminalContexts := normalized);
      draftsByThreadKey :=
        if ShouldRemove(next) then draftsByThreadKey - {threadKey.value}
        else draftsByThreadKey[threadKey.value := next];
    }

    method AddTerminalContexts(target: Target, contexts: seq<ContextDraft>)
      requires Valid()
      modifies this`draftsByThreadKey
      ensures State() == if old(KeyOf(target)).Some? && old(ThreadOf(target)).Some?
                         then AddContexts(old(State()), old(KeyOf(target)).value, old(ThreadOf(target)).value, contexts)
                         else old(State())
    {
      var threadKey := ResolveKey(target);
      var threadId := ThreadOf(target);
      if threadKey.None? || threadId.None? || contexts == [] {
        return;
      }
      var existing := ContentOf(State(), threadKey.value);
      var accepted := NormalizeAdded(threadId.value, existing.terminalContexts, contexts);
      AppendAccepted(threadKey.value, accepted);
    }

    method AppendAccepted(threadKey: string, accepted: seq<ContextDraft>)
      modifies this`draftsByThreadKey
      ensures State() == Append(old(State()), threadKey, accepted)
    {
      if accepted == [] {
        return;
      }
      var existing := ContentOf(State(), threadKey);
      var contexts := existing.terminalContexts + accepted;
      draftsByThreadKey := draftsByThreadKey[threadKey :=
        existing.(prompt := EnsurePlaceholders(existing.prompt, |contexts|), terminalContexts := contexts)];
    }

    static method NormalizeAdded(threadId: string, stored: seq<ContextDraft>, more: seq<ContextDraft>)
      returns (accepted: seq<ContextDraft>)
      ensures accepted == Added(threadId, stored, more)
    {
      var all := NormalizeTerminalContextsForThread(threadId, stored + more);
      accepted := if |stored| <= |all| then all[|stored|..] else [];
    }

    method InsertTerminalContext(
        target: Target, prompt: string, context: ContextDraft, index: int) returns (inserted: bool)
      requires Valid()
      modifies this`draftsByThreadKey
      ensures State() == if old(KeyOf(target)).Some? && old(ThreadOf(target)).Some?
                         then InsertContext(old(State()), old(KeyOf(target)).value, old(ThreadOf(target)).value,
                                            prompt, context, index)
                         else old(State())
      ensures inserted <==>
              && old(KeyOf(target)).Some? && old(ThreadOf(target)).Some?
              && var n := Normalize(old(ThreadOf(target)).value, context);
                 n.Some? && Fresh(ContentOf(old(State()), old(KeyOf(target)).value).terminalContexts, n.value)
    {
      var threadKey := ResolveKey(target);
      var threadId := ThreadOf(target);
      if threadKey.None? || threadId.None? {
        return false;
      }
      var existing := ContentOf(State(), threadKey.value);
      var contexts := existing.terminalContexts;
      var normalized := Normalize(threadId.value, context);
      if normalized.None? || !Fresh(contexts, normalized.value) {
        return false;
      }
      var boundedIndex := Max(0, if |contexts| < index then |contexts| else index);
      var next := existing.(
        prompt := prompt, terminalContexts := contexts[..boundedIndex] + [normalized.value] + contexts[boundedIndex..]);
      draftsByThreadKey := draftsByThreadKey[threadKey.value := next];
      return true;
    }
  }

  // The early exit of an upsert is taken only when the upsert would change nothing.
  lemma UnchangedUpsert(s: Store, key: string, ref: ProjectRef, draftId: string, o: Options, now: string)
    requires key in s.logical && s.logical[key] == draftId
    requires forall k :: k in s.logical && s.logical[k] == draftId ==> k == key
    requires Lookup(s.sessions, draftId) == Some(NextSession(s, key, ref, draftId, o, now))
    ensures Upsert(s, key, ref, draftId, o, now) == s
  {
    assert AssignMapping(s.logical, key, draftId) == s.logical;
    assert s.sessions[draftId := NextSession(s, key, ref, draftId, o, now)] == s.sessions;
  }
}
