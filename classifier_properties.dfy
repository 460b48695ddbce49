/**
 What `processCommits` does to the three identity mappings and the commit
 counter: per commit, per branch, and for a whole batch.
 */
module ClassifierProperties {
  import opened SearchState

  /** The author names of the commits attributed to `username`. */
  function UserNames(cs: seq<Commit>, username: string): set<string>
  {
    set i | 0 <= i < |cs| && IsUsers(cs[i], username) :: cs[i].name
  }

  /** The author emails of the commits attributed to `username`. */
  function UserEmails(cs: seq<Commit>, username: string): set<string>
  {
    set i | 0 <= i < |cs| && IsUsers(cs[i], username) :: cs[i].email
  }

  /** The names and emails of the commits with no account handle. */
  function UnattributedKeys(cs: seq<Commit>): set<string>
  {
    (set i | 0 <= i < |cs| && !HasLogin(cs[i]) :: cs[i].name) +
    (set i | 0 <= i < |cs| && !HasLogin(cs[i]) :: cs[i].email)
  }

  /** The variables that classifying commits never touches. */
  predicate SameOutsideClassifier(s: ScriptState, t: ScriptState)
  {
    && t.username == s.username
    && t.repoListLength == s.repoListLength
    && t.repoCounter == s.repoCounter
    && t.processing == s.processing
    && t.isToastVisible == s.isToastVisible
    && t.isDone == s.isDone
    && t.abortController == s.abortController
  }

  // ---------------------------------------------------------------------------
  // One commit

  /** A commit by the searched user records its name and email, each only if
      the key is still absent: an existing entry keeps its earlier repository. */
  lemma UsersCommitFirstWriteWins(s: ScriptState, c: Commit, repo: string)
    requires IsUsers(c, s.username)
    ensures var r := Classified(s, c, repo);
      && c.name in r.usernameMapping && c.email in r.emailMapping
      && r.usernameMapping[c.name] == (if c.name in s.usernameMapping then s.usernameMapping[c.name] else repo)
      && r.emailMapping[c.email] == (if c.email in s.emailMapping then s.emailMapping[c.email] else repo)
      && r.usernameMapping.Keys == s.usernameMapping.Keys + {c.name}
      && r.emailMapping.Keys == s.emailMapping.Keys + {c.email}
      && (forall k :: k in s.usernameMapping ==> r.usernameMapping[k] == s.usernameMapping[k])
      && (forall k :: k in s.emailMapping ==> r.emailMapping[k] == s.emailMapping[k])
      && r.unknownMapping == s.unknownMapping
      && r.commitCounter == s.commitCounter + 1
  {
  }

  /** A commit with no handle (absent or empty) sets both its name and its
      email in the unknown mapping to the current repository, overwriting any
      earlier value, and leaves the other two mappings alone. */
  lemma UnattributedCommitOverwrites(s: ScriptState, c: Commit, repo: string)
    requires !HasLogin(c)
    ensures var r := Classified(s, c, repo);
      && c.name in r.unknownMapping && r.unknownMapping[c.name] == repo
      && c.email in r.unknownMapping && r.unknownMapping[c.email] == repo
      && r.unknownMapping.Keys == s.unknownMapping.Keys + {c.name, c.email}
      && (forall k :: k in s.unknownMapping && k != c.name && k != c.email ==>
            r.unknownMapping[k] == s.unknownMapping[k])
      && r.usernameMapping == s.usernameMapping
      && r.emailMapping == s.emailMapping
      && r.commitCounter == s.commitCounter + 1
  {
  }

  /** A commit whose handle belongs to someone else changes no mapping; it
      is still counted. */
  lemma ForeignCommitIgnored(s: ScriptState, c: Commit, repo: string)
    requires HasLogin(c) && c.login.value != s.username
    ensures Classified(s, c, repo) == s.(commitCounter := s.commitCounter + 1)
  {
  }

  // ---------------------------------------------------------------------------
  // A batch

  /** Classifying commits changes nothing outside the three mappings and the
      commit counter, and the counter never goes down. */
  lemma {:induction false} BatchFrame(s: ScriptState, cs: seq<Commit>, repo: string)
    ensures var r := CommitsProcessed(s, cs, repo).0;
      SameOutsideClassifier(s, r) && s.commitCounter <= r.commitCounter
    decreases |cs|
  {
    if cs != [] && !Aborted(s) {
      BatchFrame(Classified(s, cs[0], repo), cs[1..], repo);
    }
  }

  /** The cancellation check at the head of each iteration decides the outcome:
      a cancelled run throws at the first commit with nothing changed;
      otherwise every commit is classified and counted. */
  lemma {:induction false} BatchOutcome(s: ScriptState, cs: seq<Commit>, repo: string)
    ensures var (r, o) := CommitsProcessed(s, cs, repo);
      && (Aborted(s) && cs != [] ==> r == s && o == Throw(NewError(AbortMessage)))
      && (!Aborted(s) ==> o == Normal && r.commitCounter == s.commitCounter + |cs|)
      && (o.Throw? ==> IsAbort(o.error))
    decreases |cs|
  {
    if cs != [] && !Aborted(s) {
      BatchOutcome(Classified(s, cs[0], repo), cs[1..], repo);
    }
  }

  /** An entry already in the username or email mapping keeps its repository,
      and no key ever leaves any of the three mappings. */
  lemma {:induction false} BatchKeepsAttributions(s: ScriptState, cs: seq<Commit>, repo: string)
    ensures var r := CommitsProcessed(s, cs, repo).0;
      && (forall k :: k in s.usernameMapping ==> k in r.usernameMapping && r.usernameMapping[k] == s.usernameMapping[k])
      && (forall k :: k in s.emailMapping ==> k in r.emailMapping && r.emailMapping[k] == s.emailMapping[k])
      && s.unknownMapping.Keys <= r.unknownMapping.Keys
    decreases |cs|
  {
    if cs != [] && !Aborted(s) {
      var s' := Classified(s, cs[0], repo);
      assert CommitsProcessed(s, cs, repo) == CommitsProcessed(s', cs[1..], repo);
      CommitKeepsAttributions(s, cs[0], repo);
      BatchKeepsAttributions(s', cs[1..], repo);
    }
  }

  /** The step of `BatchKeepsAttributions` for one commit. */
  lemma CommitKeepsAttributions(s: ScriptState, c: Commit, repo: string)
    ensures var r := Classified(s, c, repo);
      && (forall k :: k in s.usernameMapping ==> k in r.usernameMapping && r.usernameMapping[k] == s.usernameMapping[k])
      && (forall k :: k in s.emailMapping ==> k in r.emailMapping && r.emailMapping[k] == s.emailMapping[k])
      && s.unknownMapping.Keys <= r.unknownMapping.Keys
  {
    if IsUsers(c, s.username) {
      UsersCommitFirstWriteWins(s, c, repo);
    } else if HasLogin(c) {
      ForeignCommitIgnored(s, c, repo);
    } else {
      UnattributedCommitOverwrites(s, c, repo);
    }
  }

  /** How the key sets of a batch split into its first commit and the rest. */
  lemma KeysOfTail(cs: seq<Commit>, username: string)
    requires cs != []
    ensures UserNames(cs, username) ==
              (if IsUsers(cs[0], username) then {cs[0].name} else {}) + UserNames(cs[1..], username)
    ensures UserEmails(cs, username) ==
              (if IsUsers(cs[0], username) then {cs[0].email} else {}) + UserEmails(cs[1..], username)
    ensures UnattributedKeys(cs) ==
              (if !HasLogin(cs[0]) then {cs[0].name, cs[0].email} else {}) + UnattributedKeys(cs[1..])
  {
    var tail := cs[1..];
    forall k | k in UserNames(cs, username)
      ensures k in (if IsUsers(cs[0], username) then {cs[0].name} else {}) + UserNames(tail, username)
    {
      var i :| 0 <= i < |cs| && IsUsers(cs[i], username) && cs[i].name == k;
      if i > 0 { assert tail[i - 1] == cs[i]; }
    }
    forall k | k in UserNames(tail, username) ensures k in UserNames(cs, username) {
      var i :| 0 <= i < |tail| && IsUsers(tail[i], username) && tail[i].name == k;
      assert cs[i + 1] == tail[i];
    }
    forall k | k in UserEmails(cs, username)
      ensures k in (if IsUsers(cs[0], username) then {cs[0].email} else {}) + UserEmails(tail, username)
    {
      var i :| 0 <= i < |cs| && IsUsers(cs[i], username) && cs[i].email == k;
      if i > 0 { assert tail[i - 1] == cs[i]; }
    }
    forall k | k in UserEmails(tail, username) ensures k in UserEmails(cs, username) {
      var i :| 0 <= i < |tail| && IsUsers(tail[i], username) && tail[i].email == k;
      assert cs[i + 1] == tail[i];
    }
    forall k | k in UnattributedKeys(cs)
      ensures k in (if !HasLogin(cs[0]) then {cs[0].name, cs[0].email} else {}) + UnattributedKeys(tail)
    {
      var i :| 0 <= i < |cs| && !HasLogin(cs[i]) && (cs[i].name == k || cs[i].email == k);
      if i > 0 { assert tail[i - 1] == cs[i]; }
    }
    forall k | k in UnattributedKeys(tail) ensures k in UnattributedKeys(cs) {
      var i :| 0 <= i < |tail| && !HasLogin(tail[i]) && (tail[i].name == k || tail[i].email == k);
      assert cs[i + 1] == tail[i];
    }
  }

  /** The username mapping after a whole batch, commit by commit. */
  function UsernamesAfterAll(m: map<string, string>, cs: seq<Commit>, username: string, repo: string): map<string, string>
    decreases |cs|
  {
    if cs == [] then m else UsernamesAfterAll(UsernamesAfter(m, cs[0], username, repo), cs[1..], username, repo)
  }

  /** The email mapping after a whole batch, commit by commit. */
  function EmailsAfterAll(m: map<string, string>, cs: seq<Commit>, username: string, repo: string): map<string, string>
    decreases |cs|
  {
    if cs == [] then m else EmailsAfterAll(EmailsAfter(m, cs[0], username, repo), cs[1..], username, repo)
  }

  /** The unknown mapping after a whole batch, commit by commit. */
  function UnknownsAfterAll(m: map<string, string>, cs: seq<Commit>, repo: string): map<string, string>
    decreases |cs|
  {
    if cs == [] then m else UnknownsAfterAll(UnknownsAfter(m, cs[0], repo), cs[1..], repo)
  }

  /** Without a cancellation, each mapping evolves on its own, commit by commit. */
  lemma {:induction false} BatchMappings(s: ScriptState, cs: seq<Commit>, repo: string)
    requires !Aborted(s)
    ensures var r := CommitsProcessed(s, cs, repo).0;
      && r.usernameMapping == UsernamesAfterAll(s.usernameMapping, cs, s.username, repo)
      && r.emailMapping == EmailsAfterAll(s.emailMapping, cs, s.username, repo)
      && r.unknownMapping == UnknownsAfterAll(s.unknownMapping, cs, repo)
    decreases |cs|
  {
    if cs != [] {
      BatchMappings(Classified(s, cs[0], repo), cs[1..], repo);
    }
  }

  /** First write wins within a batch, for the username mapping. */
  lemma {:induction false} UsernamesFirstWriteWins(m: map<string, string>, cs: seq<Commit>, username: string, repo: string)
    ensures var r := UsernamesAfterAll(m, cs, username, repo);
      && r.Keys == m.Keys + UserNames(cs, username)
      && (forall k :: k in r ==> r[k] == if k in m then m[k] else repo)
    decreases |cs|
  {
    if cs != [] {
      UsernamesFirstWriteWins(UsernamesAfter(m, cs[0], username, repo), cs[1..], username, repo);
      KeysOfTail(cs, username);
    }
  }

  /** First write wins within a batch, for the email mapping. */
  lemma {:induction false} EmailsFirstWriteWins(m: map<string, string>, cs: seq<Commit>, username: string, repo: string)
    ensures var r := EmailsAfterAll(m, cs, username, repo);
      && r.Keys == m.Keys + UserEmails(cs, username)
      && (forall k :: k in r ==> r[k] == if k in m then m[k] else repo)
    decreases |cs|
  {
    if cs != [] {
      EmailsFirstWriteWins(EmailsAfter(m, cs[0], username, repo), cs[1..], username, repo);
      KeysOfTail(cs, username);
    }
  }

  /** Last write wins within a batch, for the unknown mapping. */
  lemma {:induction false} UnknownsLastWriteWins(m: map<string, string>, cs: seq<Commit>, repo: string)
    ensures var r := UnknownsAfterAll(m, cs, repo);
      && r.Keys == m.Keys + UnattributedKeys(cs)
      && (forall k :: k in r ==> r[k] == if k in UnattributedKeys(cs) then repo else m[k])
    decreases |cs|
  {
    if cs != [] {
      var m' := UnknownsAfter(m, cs[0], repo);
      UnknownsLastWriteWins(m', cs[1..], repo);
      KeysOfTail(cs, "");
      var r := UnknownsAfterAll(m', cs[1..], repo);
      forall k | k in r
        ensures r[k] == if k in UnattributedKeys(cs) then repo else m[k]
      {
        if k !in UnattributedKeys(cs[1..]) {
          assert r[k] == m'[k];
        }
      }
    }
  }

  /** A batch classified without cancellation: the username and email
      mappings gain exactly the names and emails of the user's commits; the
      new entries point at this repository and the old ones are untouched
      (first write wins). Commits by other accounts add nothing. */
  lemma BatchUserAttribution(s: ScriptState, cs: seq<Commit>, repo: string)
    requires !Aborted(s)
    ensures var r := CommitsProcessed(s, cs, repo).0;
      && r.usernameMapping.Keys == s.usernameMapping.Keys + UserNames(cs, s.username)
      && (forall k :: k in r.usernameMapping ==>
            r.usernameMapping[k] == if k in s.usernameMapping then s.usernameMapping[k] else repo)
      && r.emailMapping.Keys == s.emailMapping.Keys + UserEmails(cs, s.username)
      && (forall k :: k in r.emailMapping ==>
            r.emailMapping[k] == if k in s.emailMapping then s.emailMapping[k] else repo)
  {
    BatchMappings(s, cs, repo);
    UsernamesFirstWriteWins(s.usernameMapping, cs, s.username, repo);
    EmailsFirstWriteWins(s.emailMapping, cs, s.username, repo);
  }

  /** A batch classified without cancellation: the unknown mapping gains
      exactly the names and emails of the commits without a handle, and all of
      those point at this repository afterwards, whatever they held before
      (last write wins). Every other entry is untouched. */
  lemma BatchUnknownAttribution(s: ScriptState, cs: seq<Commit>, repo: string)
    requires !Aborted(s)
    ensures var r := CommitsProcessed(s, cs, repo).0;
      && r.unknownMapping.Keys == s.unknownMapping.Keys + UnattributedKeys(cs)
      && (forall k :: k in r.unknownMapping ==>
            r.unknownMapping[k] == if k in UnattributedKeys(cs) then repo else s.unknownMapping[k])
  {
    BatchMappings(s, cs, repo);
    UnknownsLastWriteWins(s.unknownMapping, cs, repo);
  }
}
