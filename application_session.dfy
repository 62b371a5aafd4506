/** The per-host application session: created on first use, replaced once it
    is older than a day or completed, tracking the pages visited. The clock,
    the random id and the page's address are parameters. */
module SessionManager {
  import opened Wrappers
  import opened Schema
  import opened Storage

  /** 24 hours in milliseconds */
  const SessionLifetime: int := 24 * 60 * 60 * 1000

  /** A stored session is discarded when it is strictly older than a day or
      already completed. */
  predicate Stale(session: ApplicationSession, now: int) {
    now - session.createdAt > SessionLifetime || session.status == Completed
  }

  /** A fresh session: no steps yet, in progress, at the current page */
  function NewSession(id: string, now: int, href: string): (s: ApplicationSession)
    ensures s.id == id && s.createdAt == now && s.currentStep == href
    ensures s.stepsVisited == [] && s.status == InProgress
    ensures !Stale(s, now)
  {
    ApplicationSession(id, now, [], href, None, None, InProgress)
  }

  /** The session `getOrCreateSession` returns: the stored one while it is
      still live, a fresh one otherwise */
  function CurrentSession(stored: Option<ApplicationSession>, now: int, freshId: string, href: string): ApplicationSession {
    if stored.Some? && !Stale(stored.value, now) then stored.value else NewSession(freshId, now, href)
  }

  /** A live stored session is kept with its id and steps; otherwise a new
      in-progress session with no steps is started at the given time. */
  lemma CurrentSessionSpec(stored: Option<ApplicationSession>, now: int, freshId: string, href: string)
    ensures var s := CurrentSession(stored, now, freshId, href);
      && (stored.Some? && !Stale(stored.value, now) ==> s == stored.value)
      && (stored.None? || Stale(stored.value, now) ==>
            s.id == freshId && s.createdAt == now && s.stepsVisited == [] && s.status == InProgress)
      && !Stale(s, now)
  {
  }

  /** The expiry is strict: a session exactly a day old is still used, one a
      millisecond older is not. */
  lemma ExpiryIsStrict(session: ApplicationSession)
    requires session.status == InProgress
    ensures !Stale(session, session.createdAt + SessionLifetime)
    ensures Stale(session, session.createdAt + SessionLifetime + 1)
  {
  }

  /** The session after `updateStep(url)`: the url recorded once and made the
      current step */
  function WithStep(session: ApplicationSession, url: string): ApplicationSession {
    var steps := if url in session.stepsVisited then session.stepsVisited else session.stepsVisited + [url];
    session.(stepsVisited := steps, currentStep := url)
  }

  predicate NoDuplicates(xs: seq<string>) {
    forall i, j :: 0 <= i < j < |xs| ==> xs[i] != xs[j]
  }

  /** A step is recorded at most once: the visited list stays free of
      duplicates, gains the url and at most one entry, keeps its order, and
      nothing but the visited list and the current step changes. */
  lemma WithStepSpec(session: ApplicationSession, url: string)
    requires NoDuplicates(session.stepsVisited)
    ensures var s := WithStep(session, url);
      && NoDuplicates(s.stepsVisited)
      && url in s.stepsVisited
      && s.currentStep == url
      && s.stepsVisited[..|session.stepsVisited|] == session.stepsVisited
      && |s.stepsVisited| <= |session.stepsVisited| + 1
      && (forall u :: u in s.stepsVisited <==> u in session.stepsVisited || u == url)
      && s.id == session.id && s.createdAt == session.createdAt && s.status == session.status
  {
    var s := WithStep(session, url);
    if url !in session.stepsVisited {
      assert s.stepsVisited[|session.stepsVisited|] == url;
    }
  }

  /** Visiting the same page twice in a row records it once. */
  lemma WithStepIdempotent(session: ApplicationSession, url: string)
    ensures WithStep(WithStep(session, url), url) == WithStep(session, url)
  {
    assert url in WithStep(session, url).stepsVisited;
  }

  /** `getOrCreateSession(hostname)`: returns the live stored session
      untouched, or creates, stores and returns a new one */
  method GetOrCreateSession(store: Store, hostname: string, now: int, freshId: string, href: string)
    returns (session: ApplicationSession)
    modifies store
    ensures session == CurrentSession(old(store.GetSession(hostname)), now, freshId, href)
    ensures old(store.GetSession(hostname)).Some? && !Stale(old(store.GetSession(hostname)).value, now) ==>
              store.sessions == old(store.sessions)
    ensures store.GetSession(hostname) == Some(session)
    ensures forall other :: other != hostname ==> store.GetSession(other) == old(store.GetSession(other))
    ensures store.profiles == old(store.profiles) && store.jobDescriptions == old(store.jobDescriptions)
    ensures store.currentJobDescriptionId == old(store.currentJobDescriptionId)
    ensures store.preferences == old(store.preferences) && store.llmConfig == old(store.llmConfig)
    ensures store.defaultProfileId == old(store.defaultProfileId)
  {
    var stored := store.GetSession(hostname);
    if stored.Some? && (now - stored.value.createdAt > SessionLifetime || stored.value.status == Completed) {
      stored := None;
    }
    if stored.None? {
      session := NewSession(freshId, now, href);
      store.SaveSession(hostname, session);
    } else {
      session := stored.value;
    }
  }

  /** `updateStep(hostname, url)` */
  method UpdateStep(store: Store, hostname: string, url: string, now: int, freshId: string, href: string)
    modifies store
    ensures store.GetSession(hostname) ==
              Some(WithStep(CurrentSession(old(store.GetSession(hostname)), now, freshId, href), url))
    ensures forall other :: other != hostname ==> store.GetSession(other) == old(store.GetSession(other))
    ensures store.profiles == old(store.profiles) && store.jobDescriptions == old(store.jobDescriptions)
    ensures store.currentJobDescriptionId == old(store.currentJobDescriptionId)
    ensures store.preferences == old(store.preferences) && store.llmConfig == old(store.llmConfig)
    ensures store.defaultProfileId == old(store.defaultProfileId)
  {
    var session := GetOrCreateSession(store, hostname, now, freshId, href);
    var steps := session.stepsVisited;
    if url !in steps {
      steps := steps + [url];
    }
    session := session.(stepsVisited := steps, currentStep := url);
    store.SaveSession(hostname, session);
  }

  /** `markCompleted(hostname)` */
  method MarkCompleted(store: Store, hostname: string, now: int, freshId: string, href: string)
    modifies store
    ensures store.GetSession(hostname) ==
              Some(CurrentSession(old(store.GetSession(hostname)), now, freshId, href).(status := Completed))
    ensures forall other :: other != hostname ==> store.GetSession(other) == old(store.GetSession(other))
    ensures store.profiles == old(store.profiles) && store.jobDescriptions == old(store.jobDescriptions)
    ensures store.currentJobDescriptionId == old(store.currentJobDescriptionId)
    ensures store.preferences == old(store.preferences) && store.llmConfig == old(store.llmConfig)
    ensures store.defaultProfileId == old(store.defaultProfileId)
  {
    var session := GetOrCreateSession(store, hostname, now, freshId, href);
    session := session.(status := Completed);
    store.SaveSession(hostname, session);
  }

  /** Once completed, the next lookup starts a new session, whatever the time. */
  lemma CompletedIsReplaced(session: ApplicationSession, now: int, freshId: string, href: string)
    ensures CurrentSession(Some(session.(status := Completed)), now, freshId, href) == NewSession(freshId, now, href)
  {
  }
}
