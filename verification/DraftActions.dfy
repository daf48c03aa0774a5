// What the actions of the draft store do to a draft, and that they do nothing to any other.
module DraftActions {
  import opened Text
  import opened TerminalContexts
  import opened DraftStore

  // ---- Removing a draft ----

  ghost predicate OthersUnchanged(s: Store, t: Store, draftId: string) {
    forall d :: d != draftId ==>
      Lookup(t.drafts, d) == Lookup(s.drafts, d) && Lookup(t.sessions, d) == Lookup(s.sessions, d)
  }

  // The draft is gone from all three maps, and nothing else is.
  ghost predicate Removed(s: Store, t: Store, draftId: string) {
    && draftId !in t.drafts && draftId !in t.sessions && draftId !in t.logical.Values
    && OthersUnchanged(s, t, draftId)
    && forall p :: Lookup(t.logical, p) == if Lookup(s.logical, p) == Some(draftId) then None else Lookup(s.logical, p)
  }

  // When an action that may remove a draft has to.
  ghost predicate MustRemove(s: Store, a: Action) {
    match a
    case DoClear(_) => true
    case DoFinalizePromoted(d) => d in s.sessions && s.sessions[d].promotedTo != None
    case DoClearForProject(ref, d) =>
      d in s.sessions && ProjectRef(s.sessions[d].environmentId, s.sessions[d].projectId) == ref
    case _ => false
  }

  lemma RemovalIsExact(s: Store, a: Action)
    requires a.DoClear? || a.DoFinalizePromoted? || a.DoClearForProject?
    ensures if MustRemove(s, a) then Removed(s, Apply(s, a), a.threadKey) else Apply(s, a) == s
  {
  }

  // A project whose draft is removed finds none any more; every other project finds what it found.
  lemma ProjectLosesRemovedDraft(s: Store, t: Store, draftId: string, project: string)
    requires Consistent(s) && Removed(s, t, draftId)
    ensures DraftForProject(t, project) ==
              if Lookup(s.logical, project) == Some(draftId) then None else DraftForProject(s, project)
    ensures draftId in s.sessions && !Promoting(s.sessions[draftId]) ==>
              && DraftForProject(s, s.sessions[draftId].logicalProjectKey) == Some((draftId, s.sessions[draftId]))
              && DraftForProject(t, s.sessions[draftId].logicalProjectKey) == None
  {
    if draftId in s.sessions && !Promoting(s.sessions[draftId]) {
      assert draftId in s.logical.Values;
      var k :| k in s.logical && s.logical[k] == draftId;
      LookupAfterRemoval(s, t, draftId, k);
    }
    LookupAfterRemoval(s, t, draftId, project);
  }

  lemma LookupAfterRemoval(s: Store, t: Store, draftId: string, project: string)
    requires Removed(s, t, draftId)
    ensures DraftForProject(t, project) ==
              if Lookup(s.logical, project) == Some(draftId) then None else DraftForProject(s, project)
  {
    assert Lookup(t.logical, project) ==
           if Lookup(s.logical, project) == Some(draftId) then None else Lookup(s.logical, project);
    if project in t.logical {
      assert Lookup(t.sessions, t.logical[project]) == Lookup(s.sessions, t.logical[project]);
    }
  }

  // ---- Promoting a draft ----

  // A promoted draft is found by no project, and finalizing removes it; nothing else changes.
  lemma PromotedIsFinalized(s: Store, draftId: string, promotedTo: Option<ThreadRef>, project: string)
    requires Consistent(s) && draftId in s.sessions
    ensures var t, session := MarkPromoting(s, draftId, promotedTo), s.sessions[draftId];
            && OthersUnchanged(s, t, draftId) && t.logical == s.logical && t.drafts == s.drafts
            && draftId in t.sessions
            && t.sessions[draftId] == session.(promotedTo := t.sessions[draftId].promotedTo)
            && t.sessions[draftId].promotedTo ==
                 Some(if promotedTo.Some? then promotedTo.value else ThreadRef(session.environmentId, session.threadId))
            && DraftForProject(t, project) ==
                 (if Lookup(s.logical, project) == Some(draftId) then None else DraftForProject(s, project))
            && Removed(s, FinalizePromoted(t, draftId), draftId)
  {
    var t := MarkPromoting(s, draftId, promotedTo);
    RemovalIsExact(t, DoFinalizePromoted(draftId));
    RemovedThrough(s, t, FinalizePromoted(t, draftId), draftId);
  }

  lemma RemovedThrough(s: Store, t: Store, u: Store, draftId: string)
    requires OthersUnchanged(s, t, draftId) && t.logical == s.logical && Removed(t, u, draftId)
    ensures Removed(s, u, draftId)
  {
  }

  // ---- Moving a draft ----

  // A session after it was given a project and options: what is set sticks, a branch and a worktree go with
  // the project, and everything else stays.
  ghost predicate Moved(existing: Session, next: Session, ref: ProjectRef, o: Options) {
    var stays := ref == ProjectRef(existing.environmentId, existing.projectId);
    && ProjectRef(next.environmentId, next.projectId) == ref
    && next.promotedTo == existing.promotedTo
    && Sticks(o.branch, existing.branch, next.branch, stays)
    && Sticks(o.worktreePath, existing.worktreePath, next.worktreePath, stays)
    && (o.envMode.Some? ==> next.envMode == o.envMode.value)
    && (o.envMode.None? && Truthy(next.worktreePath) ==> next.envMode == "worktree")
    && (o.envMode.None? && !Truthy(next.worktreePath) ==> next.envMode == if stays then existing.envMode else "local")
    && next.runtimeMode == (if o.runtimeMode.Some? then o.runtimeMode.value else existing.runtimeMode)
    && next.interactionMode == (if o.interactionMode.Some? then o.interactionMode.value else existing.interactionMode)
  }

  ghost predicate Sticks(setting: Setting, before: Option<string>, after: Option<string>, stays: bool) {
    && (setting.SetTo? ==> after == setting.value)
    && (setting.Unspecified? && stays ==> after == before)
    && (setting.Unspecified? && !stays ==> after == None)
  }

  lemma SetContextMoves(s: Store, draftId: string, projectRef: Option<ProjectRef>, o: Options)
    requires draftId in s.sessions
    ensures var t, existing := SetContext(s, draftId, projectRef, o), s.sessions[draftId];
            var own := ProjectRef(existing.environmentId, existing.projectId);
            var ref := if projectRef.Some? then projectRef.value else own;
            && OthersUnchanged(s, t, draftId) && t.drafts == s.drafts && t.logical == s.logical && draftId in t.sessions
            && var next := t.sessions[draftId];
               if ref.environmentId == "" || ref.projectId == "" then next == existing
               else
                 && Moved(existing, next, ref, o)
                 && next.threadId == existing.threadId && next.logicalProjectKey == existing.logicalProjectKey
                 && next.createdAt == (if Truthy(o.createdAt) then o.createdAt.value else existing.createdAt)
  {
  }

  // Setting a project's draft moves an existing draft in the same way, and begins a new one in the project;
  // without a project key or a draft it does nothing.
  lemma SettingMoves(s: Store, logicalProjectKey: string, ref: ProjectRef, draftId: string, o: Options, now: string)
    requires Consistent(s)
    ensures var t, key := SetLogicalProject(s, logicalProjectKey, ref, draftId, o, now), Trim(logicalProjectKey);
            if key == "" || draftId == "" then t == s
            else
              && t == Upsert(s, key, ref, draftId, o, now)
              && draftId in t.sessions && Lookup(t.drafts, draftId) == Lookup(s.drafts, draftId)
              && t.sessions[draftId].logicalProjectKey == key && Lookup(t.logical, key) == Some(draftId)
              && (draftId in s.sessions ==> Reused(s.sessions[draftId], t.sessions[draftId], ref, o))
              && (draftId !in s.sessions ==> Begun(t.sessions[draftId], ref, draftId, o, now))
  {
  }

  ghost predicate Reused(existing: Session, next: Session, ref: ProjectRef, o: Options) {
    && Moved(existing, next, ref, o)
    && next.threadId == (if o.threadId.Some? then o.threadId.value else existing.threadId)
    && next.createdAt == (if o.createdAt.Some? then o.createdAt.value else existing.createdAt)
  }

  ghost predicate Begun(next: Session, ref: ProjectRef, draftId: string, o: Options, now: string) {
    var blank := Session(draftId, ref.environmentId, ref.projectId, next.logicalProjectKey, now,
                         "full-access", "default", None, None, "local", None);
    Reused(blank, next, ref, o)
  }

  // Both ways of moving a draft leave the same session, unless an empty date is given.
  lemma MovesAgree(s: Store, ref: ProjectRef, draftId: string, o: Options, now: string)
    requires Consistent(s) && draftId in s.sessions && o.threadId == None && o.createdAt != Some("")
    requires ref.environmentId != "" && ref.projectId != ""
    ensures var key := s.sessions[draftId].logicalProjectKey;
            Upsert(s, key, ref, draftId, o, now).sessions[draftId] ==
            SetContext(s, draftId, Some(ref), o).sessions[draftId]
  {
  }

  // ---- Contents ----

  // What is put there is found there, and is kept exactly if it is not empty.
  lemma PutReadsBack(s: Store, draftId: string, c: Content)
    ensures var t := Put(s, draftId, c);
            && ContentOf(t, draftId) == c && (draftId in t.drafts <==> c != EMPTY_CONTENT)
            && OthersUnchanged(s, t, draftId) && t.sessions == s.sessions && t.logical == s.logical
  {
  }

  // An action on a draft's content changes its prompt and its contexts and nothing else.
  ghost predicate Rewritten(s: Store, t: Store, draftId: string, prompt: string, contexts: seq<ContextDraft>) {
    && OthersUnchanged(s, t, draftId) && t.sessions == s.sessions && t.logical == s.logical
    && ContentOf(t, draftId) == ContentOf(s, draftId).(prompt := prompt, terminalContexts := contexts)
  }

  // A prompt in front of which the missing placeholders were put.
  ghost predicate Padded(before: string, after: string, count: nat) {
    var missing := Max(0, count - CountPlaceholders(before));
    && |after| == missing + |before| && after[missing..] == before
    && forall i :: 0 <= i < missing ==> after[i] == PLACEHOLDER
  }

  lemma PromptIsRewritten(s: Store, d: string, prompt: string)
    ensures Rewritten(s, SetPrompt(s, d, prompt), d, prompt, ContentOf(s, d).terminalContexts)
  {
    PutReadsBack(s, d, ContentOf(s, d).(prompt := prompt));
  }

  // Setting contexts takes on those that normalize and do not clash, and pads the prompt for them.
  lemma ContextsAreRewritten(s: Store, d: string, threadId: string, contexts: seq<ContextDraft>)
    returns (places: seq<nat>)
    ensures TakenOn(threadId, [], contexts, places)
    ensures var t, taken := SetContexts(s, d, threadId, contexts), NormalizedAt(threadId, contexts, places);
            Rewritten(s, t, d, ContentOf(t, d).prompt, taken)
            && Padded(ContentOf(s, d).prompt, ContentOf(t, d).prompt, |taken|)
  {
    places := AcceptTakesOn(threadId, [], contexts);
    var c := ContentOf(s, d);
    var taken := NormalizeAll(threadId, contexts);
    assert taken == NormalizedAt(threadId, contexts, places);
    PromptIsPadded(c.prompt, |taken|);
    PutReadsBack(s, d, c.(prompt := EnsurePlaceholders(c.prompt, |taken|), terminalContexts := taken));
  }

  // Adding contexts does the same behind those the draft has, and changes nothing if it takes on none.
  lemma AddedContextsAreRewritten(s: Store, d: string, threadId: string, contexts: seq<ContextDraft>)
    returns (places: seq<nat>)
    requires ContextsStored(s)
    ensures TakenOn(threadId, ContentOf(s, d).terminalContexts, contexts, places)
    ensures var t, c := AddContexts(s, d, threadId, contexts), ContentOf(s, d);
            var all := c.terminalContexts + NormalizedAt(threadId, contexts, places);
            && Rewritten(s, t, d, ContentOf(t, d).prompt, all)
            && (if |all| == |c.terminalContexts| then t == s else Padded(c.prompt, ContentOf(t, d).prompt, |all|))
  {
    var stored := ContentOf(s, d).terminalContexts;
    places := AcceptTakesOn(threadId, stored, contexts);
    AddAppends(s, d, threadId, contexts, NormalizedAt(threadId, contexts, places));
    AppendIsRewritten(s, d, NormalizedAt(threadId, contexts, places));
  }

  lemma AddAppends(s: Store, d: string, threadId: string, contexts: seq<ContextDraft>, taken: seq<ContextDraft>)
    requires ContextsStored(s)
    requires var stored := ContentOf(s, d).terminalContexts; Accept(threadId, stored, contexts) == stored + taken
    ensures AddContexts(s, d, threadId, contexts) == Append(s, d, taken)
  {
    ContentStored(s, d);
    SliceSelectsAcceptedNew(threadId, ContentOf(s, d).terminalContexts, contexts);
  }

  lemma AppendIsRewritten(s: Store, d: string, taken: seq<ContextDraft>)
    ensures var t, c := Append(s, d, taken), ContentOf(s, d);
            var all := c.terminalContexts + taken;
            && Rewritten(s, t, d, ContentOf(t, d).prompt, all)
            && (if taken == [] then t == s else Padded(c.prompt, ContentOf(t, d).prompt, |all|))
  {
    var c := ContentOf(s, d);
    if taken == [] {
      assert c.terminalContexts + [] == c.terminalContexts;
    } else {
      PromptIsPadded(c.prompt, |c.terminalContexts| + |taken|);
    }
  }

  lemma PromptIsPadded(prompt: string, count: nat)
    ensures Padded(prompt, EnsurePlaceholders(prompt, count), count)
  {
  }

  // The index, or the nearest end of a list of n.
  ghost predicate Bounded(at: nat, index: int, n: nat) {
    at <= n && (if index < 0 then at == 0 else if index > n then at == n else at == index)
  }

  // Inserting puts one normalized context at the bounded index, unless it clashes.
  lemma InsertedContextIsRewritten(
    s: Store, d: string, threadId: string, prompt: string, context: ContextDraft, index: int)
    ensures var t, had := InsertContext(s, d, threadId, prompt, context, index), ContentOf(s, d).terminalContexts;
            var n := Normalize(threadId, context);
            if n.Some? && forall c :: c in had ==> !Clash(c, n.value) then
              exists at: nat ::
                Bounded(at, index, |had|) && Rewritten(s, t, d, prompt, had[..at] + [n.value] + had[at..])
            else t == s
  {
    var had, n := ContentOf(s, d).terminalContexts, Normalize(threadId, context);
    if n.Some? {
      forall c: ContextDraft ensures Clash(c, n.value) <==> c.id == n.value.id || DedupKey(c) == DedupKey(n.value) {
        DedupKeyIsInjective(c, n.value);
      }
      var at: nat := Max(0, if |had| < index then |had| else index);
      assert Bounded(at, index, |had|);
    }
  }

  lemma {:induction false} WithoutOne(cs: seq<ContextDraft>, i: nat)
    requires i < |cs| && forall j, k :: 0 <= j < k < |cs| ==> cs[j].id != cs[k].id
    ensures Without(cs, cs[i].id) == cs[..i] + cs[i + 1..]
  {
    if i == 0 {
      WithoutNone(cs[1..], cs[0].id);
    } else {
      WithoutOne(cs[1..], i - 1);
    }
  }

  lemma {:induction false} WithoutNone(cs: seq<ContextDraft>, id: string)
    requires forall j :: 0 <= j < |cs| ==> cs[j].id != id
    ensures Without(cs, id) == cs
  {
    if cs != [] {
      WithoutNone(cs[1..], id);
    }
  }

  // Removing a context takes out exactly that one.
  lemma RemovedContextIsRewritten(s: Store, d: string, i: nat)
    requires ContextsStored(s) && i < |ContentOf(s, d).terminalContexts|
    requires ContentOf(s, d).terminalContexts[i].id != ""
    ensures var c := ContentOf(s, d);
            Rewritten(s, RemoveContext(s, d, c.terminalContexts[i].id), d, c.prompt,
                      c.terminalContexts[..i] + c.terminalContexts[i + 1..])
  {
    var c := ContentOf(s, d);
    ContentStored(s, d);
    WithoutOne(c.terminalContexts, i);
    PutReadsBack(s, d, c.(terminalContexts := Without(c.terminalContexts, c.terminalContexts[i].id)));
  }

  lemma ClearedContextsAreRewritten(s: Store, d: string)
    ensures Rewritten(s, ClearContexts(s, d), d, ContentOf(s, d).prompt, [])
  {
    PutReadsBack(s, d, ContentOf(s, d).(terminalContexts := []));
  }
}
