/**
 The identity mappings are plain JavaScript objects, not dictionaries. On a
 plain object the `in` operator also sees the names every object inherits
 from `Object.prototype`, and assigning a string to the `__proto__` key is
 silently ignored. This module models the classifier step with those object
 semantics, exactly as the script is written, and shows the difference from
 the dictionary semantics the rest of the model uses (`Classified` in
 `SearchState`).
 */
module ObjectKeys {
  import opened SearchState

  /** Property names a plain object inherits from `Object.prototype`. */
  const InheritedNames: set<string> := {
    "constructor", "hasOwnProperty", "isPrototypeOf", "propertyIsEnumerable",
    "toLocaleString", "toString", "valueOf", "__proto__",
    "__defineGetter__", "__defineSetter__", "__lookupGetter__", "__lookupSetter__"
  }

  /** `k in obj` on a plain object whose own entries are `m`. */
  predicate InObject(k: string, m: map<string, string>)
  {
    k in m || k in InheritedNames
  }

  /** `obj[k] = v` on a plain object: the `__proto__` setter ignores a string. */
  function Assigned(m: map<string, string>, k: string, v: string): map<string, string>
  {
    if k == "__proto__" then m else m[k := v]
  }

  /** The username mapping after one commit, with object semantics. */
  function UsernamesAfterAsWritten(m: map<string, string>, c: Commit, username: string, repo: string): map<string, string>
  {
    if IsUsers(c, username) && !InObject(c.name, m) then Assigned(m, c.name, repo) else m
  }

  /** The email mapping after one commit, with object semantics. */
  function EmailsAfterAsWritten(m: map<string, string>, c: Commit, username: string, repo: string): map<string, string>
  {
    if IsUsers(c, username) && !InObject(c.email, m) then Assigned(m, c.email, repo) else m
  }

  /** The unknown mapping after one commit, with object semantics. */
  function UnknownsAfterAsWritten(m: map<string, string>, c: Commit, repo: string): map<string, string>
  {
    if !HasLogin(c) then Assigned(Assigned(m, c.name, repo), c.email, repo) else m
  }

  /** The body of the loop in `processCommits` with object semantics. */
  function ClassifiedAsWritten(s: ScriptState, c: Commit, repo: string): ScriptState
  {
    s.(usernameMapping := UsernamesAfterAsWritten(s.usernameMapping, c, s.username, repo),
       emailMapping := EmailsAfterAsWritten(s.emailMapping, c, s.username, repo),
       unknownMapping := UnknownsAfterAsWritten(s.unknownMapping, c, repo),
       commitCounter := s.commitCounter + 1)
  }

  /** On keys a plain object does not inherit, the object semantics and the
      dictionary semantics agree. */
  lemma AgreesOffInheritedNames(s: ScriptState, c: Commit, repo: string)
    requires c.name !in InheritedNames && c.email !in InheritedNames
    ensures ClassifiedAsWritten(s, c, repo) == Classified(s, c, repo)
  {
    assert "__proto__" in InheritedNames;
    assert UsernamesAfterAsWritten(s.usernameMapping, c, s.username, repo)
        == UsernamesAfter(s.usernameMapping, c, s.username, repo);
    assert EmailsAfterAsWritten(s.emailMapping, c, s.username, repo)
        == EmailsAfter(s.emailMapping, c, s.username, repo);
    assert UnknownsAfterAsWritten(s.unknownMapping, c, repo) == UnknownsAfter(s.unknownMapping, c, repo);
  }

  /** As written: the searched user's commit whose author name is
      "constructor" is never recorded in the username mapping, because
      `"constructor" in {}` already holds. */
  lemma InheritedNameNeverAttributed(s: ScriptState, email: string, repo: string)
    requires s.username != "" && "constructor" !in s.usernameMapping
    ensures var c := Commit("constructor", email, Some(s.username));
      "constructor" !in ClassifiedAsWritten(s, c, repo).usernameMapping
  {
    assert "constructor" in InheritedNames;
  }

  /** Corrected (the dictionary semantics of `Classified`): every commit of
      the searched user has its name and email recorded, whatever they are. */
  lemma UsersCommitAlwaysRecorded(s: ScriptState, c: Commit, repo: string)
    requires IsUsers(c, s.username)
    ensures var r := Classified(s, c, repo);
      && c.name in r.usernameMapping && c.email in r.emailMapping
      && (c.name !in s.usernameMapping ==> r.usernameMapping[c.name] == repo)
      && (c.email !in s.emailMapping ==> r.emailMapping[c.email] == repo)
  {
  }
}
