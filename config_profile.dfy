/**
 * The `config_profile` resource type: the attributes of one declared
 * configuration profile, the checks run when they are assigned, the `home`
 * default, the `ensure` aliases and the dependency names the type hands to
 * the host engine (lib/puppet/type/config_profile.rb).
 */
module ConfigProfile {
  import opened Wrappers
  import opened Provider

  /** The two values the `ensure` property converges to. */
  datatype EnsureValue = Present | Absent

  /** What the type raises; the scope and path checks raise `ArgumentError`. */
  datatype Error =
    | ArgumentError(message: string)
      // a name that is neither an `ensure` value nor one of its aliases
    | InvalidEnsure(name: string)

  /**
   * A declared resource, as the host engine hands it over. `None` is Ruby's
   * `nil` (an attribute left out); `system` is already coerced to a bool.
   */
  datatype Resource = Resource(
    identifier: string,
    ensure: Option<string>,
    path: Option<string>,
    system: bool,
    user: Option<string>,
    home: Option<string>)

  /** The path starts with the POSIX separator `/`. */
  predicate StartsWithSeparator(p: string) {
    |p| > 0 && p[0] == '/'
  }

  /** The POSIX reading of an absolute path: it begins with `/`. */
  predicate IsAbsolute(p: string) {
    StartsWithSeparator(p)
  }

  // ---------------------------------------------------------------------
  // ensure

  /** The value `ensure` takes when it is not declared. */
  const DefaultEnsure: string := "installed"

  /** `installed` is an alias of `present`, `removed` of `absent`. */
  function NormalizeEnsure(name: string): (r: Result<EnsureValue, Error>)
    ensures r == Ok(Present) <==> name == "present" || name == "installed"
    ensures r == Ok(Absent) <==> name == "absent" || name == "removed"
    ensures r.Err? ==> r.error == InvalidEnsure(name)
  {
    if name == "present" || name == "installed" then Ok(Present)
    else if name == "absent" || name == "removed" then Ok(Absent)
    else Err(InvalidEnsure(name))
  }

  /**
   * The desired state of a resource: a resource that does not mention
   * `ensure` is to be installed; a declared name goes through the aliases.
   */
  function DesiredEnsure(r: Resource): (e: Result<EnsureValue, Error>)
    ensures r.ensure.None? ==> e == Ok(Present)
    ensures r.ensure.Some? ==> e == NormalizeEnsure(r.ensure.value)
  {
    NormalizeEnsure(r.ensure.GetOr(DefaultEnsure))
  }

  // ---------------------------------------------------------------------
  // The attribute checks. Each scope check reads the other scope attribute
  // as it stands when the check runs, so that value is a parameter.

  /** Ruby's `"#{value}"`: `nil` interpolates as the empty string. */
  function Interpolate(value: Option<string>): (s: string) {
    value.GetOr("")
  }

  function PathMessage(value: Option<string>): (message: string) {
    "Profile path must be fully qualified, not '" + Interpolate(value) + "'"
  }

  function HomeMessage(value: string): (message: string) {
    "Home path must be fully qualified, not '" + value + "'"
  }

  const ScopeConflictMessage: string := "Scope error: must not set both user and system"
  const NoScopeMessage: string := "No scope defined: must set user or system"

  /** `path` must be given and absolute; the error names the offending value. */
  function ValidatePath(value: Option<string>): (r: Result<(), Error>)
    ensures r.Ok? <==> value.Some? && IsAbsolute(value.value)
    ensures r.Err? ==> r.error == ArgumentError(PathMessage(value))
  {
    if value.Some? && IsAbsolute(value.value) then Ok(())
    else Err(ArgumentError(PathMessage(value)))
  }

  /** A true `system` is refused while `user` is set; anything else passes. */
  function ValidateSystem(value: bool, currentUser: Option<string>): (r: Result<(), Error>)
    ensures r.Err? <==> value && currentUser.Some?
    ensures r.Err? ==> r.error == ArgumentError(ScopeConflictMessage)
  {
    if value && currentUser.Some? then Err(ArgumentError(ScopeConflictMessage))
    else Ok(())
  }

  /**
   * A `nil` user is refused unless `system` is already true. Any string is
   * truthy in Ruby, so the empty user name passes as well.
   */
  function ValidateUser(value: Option<string>, currentSystem: bool): (r: Result<(), Error>)
    ensures r.Err? <==> value.None? && !currentSystem
    ensures r.Err? ==> r.error == ArgumentError(NoScopeMessage)
  {
    if value.None? && !currentSystem then Err(ArgumentError(NoScopeMessage))
    else Ok(())
  }

  /** `home` may be absent; when present it must be absolute. */
  function ValidateHome(value: Option<string>): (r: Result<(), Error>)
    ensures r.Ok? <==> value.None? || IsAbsolute(value.value)
    ensures r.Err? ==> r.error == ArgumentError(HomeMessage(value.value))
  {
    if value.None? || IsAbsolute(value.value) then Ok(())
    else Err(ArgumentError(HomeMessage(value.value)))
  }

  // ---------------------------------------------------------------------
  // home

  /**
   * Ruby's `File.join(dir, name)` for a `dir` without a trailing separator
   * and strings without NUL bytes: one `/` goes between the two, unless
   * `name` already starts with one.
   */
  function JoinPath(dir: string, name: string): (joined: string) {
    if StartsWithSeparator(name) then dir + name else dir + "/" + name
  }

  /** The directory prefix of every default home. */
  const UsersPrefix: string := "/Users/"

  /** Recovers the user name from a home directory under `/Users/`. */
  function UserOfHome(home: string): (user: Option<string>) {
    if |home| >= |UsersPrefix| && home[..|UsersPrefix|] == UsersPrefix then Some(home[|UsersPrefix|..])
    else None
  }

  /** A user name as it appears after `/Users/`: one leading `/` is absorbed by the join. */
  function JoinedName(user: string): (name: string) {
    if StartsWithSeparator(user) then user[1..] else user
  }

  /**
   * The default home, `File.join('', 'Users', user)` for a user-scoped
   * resource and nothing otherwise. It is absolute, and the user name, less
   * one leading `/`, can be read back from it.
   */
  function HomeDefault(user: Option<string>): (home: Option<string>)
    ensures home.Some? <==> user.Some?
    ensures home.Some? ==> IsAbsolute(home.value)
    ensures home.Some? ==> UserOfHome(home.value) == Some(JoinedName(user.value))
  {
    if user.Some? then
      var h := JoinPath(JoinPath("", "Users"), user.value);
      assert JoinPath("", "Users") == "/Users";
      assert h == UsersPrefix + JoinedName(user.value);
      assert h[..|UsersPrefix|] == UsersPrefix;
      assert h[|UsersPrefix|..] == JoinedName(user.value);
      Some(h)
    else None
  }

  /**
   * `home` as the resource sees it: the declared value, else the default.
   * It is missing only for a resource with neither `home` nor `user`, and a
   * defaulted value always passes the `home` check.
   */
  function EffectiveHome(r: Resource): (h: Option<string>)
    ensures r.home.Some? ==> h == r.home
    ensures r.home.None? ==> h == HomeDefault(r.user)
    ensures h.Some? <==> r.home.Some? || r.user.Some?
    ensures r.home.None? ==> ValidateHome(h).Ok?
  {
    if r.home.Some? then r.home else HomeDefault(r.user)
  }

  /** The default home of a user is `/Users/` followed by the name as joined. */
  lemma HomeDefaultSpelledOut(u: string)
    ensures HomeDefault(Some(u)) == Some(UsersPrefix + JoinedName(u))
  {
    assert JoinPath("", "Users") == "/Users";
    if StartsWithSeparator(u) {
      assert u == "/" + u[1..];
      assert "/Users" + u == UsersPrefix + u[1..];
    } else {
      assert "/Users" + "/" + u == UsersPrefix + u;
    }
  }

  /**
   * Two user names share a default home exactly when they agree once one
   * leading `/` is dropped; in particular two names that do not start with
   * `/` share a home only when they are equal.
   */
  lemma {:induction false} HomeDefaultsAgreeExactly(u1: string, u2: string)
    ensures HomeDefault(Some(u1)) == HomeDefault(Some(u2)) <==> JoinedName(u1) == JoinedName(u2)
  {
    HomeDefaultSpelledOut(u1);
    HomeDefaultSpelledOut(u2);
    if HomeDefault(Some(u1)) == HomeDefault(Some(u2)) {
      assert UserOfHome(HomeDefault(Some(u1)).value) == Some(JoinedName(u1));
      assert UserOfHome(HomeDefault(Some(u2)).value) == Some(JoinedName(u2));
    }
  }

  /** A leading `/` is absorbed by the join: `/<name>` gets the same home as `<name>`. */
  lemma {:induction false} HomeDefaultAbsorbsLeadingSeparator(u: string)
    requires !StartsWithSeparator(u)
    ensures HomeDefault(Some("/" + u)) == HomeDefault(Some(u))
  {
    assert StartsWithSeparator("/" + u);
    assert ("/" + u)[1..] == u;
    HomeDefaultSpelledOut(u);
    HomeDefaultSpelledOut("/" + u);
  }

  // ---------------------------------------------------------------------
  // Dependency inference

  const ExecPrefix: string := "managed_"
  const ExecSuffix: string := "_home"

  /** Recovers the user name from an exec name `managed_<user>_home`. */
  function UserOfExecName(name: string): (user: Option<string>) {
    var lo, hi := |ExecPrefix|, |name| - |ExecSuffix|;
    if lo <= hi && name[..lo] == ExecPrefix && name[hi..] == ExecSuffix then Some(name[lo..hi])
    else None
  }

  /** The user a resource requires: its own `user`, if any. */
  function AutoUser(r: Resource): (dep: Option<string>)
    ensures dep.Some? <==> r.user.Some?
    ensures dep.Some? ==> dep.value == r.user.value
  {
    if r.user.Some? then r.user else None
  }

  /**
   * The exec a resource requires: `managed_<user>_home` for a user-scoped
   * resource, from which the user can be read back, and nothing otherwise.
   */
  function AutoExec(r: Resource): (dep: Option<string>)
    ensures dep.Some? <==> r.user.Some?
    ensures dep.Some? ==> UserOfExecName(dep.value) == r.user
  {
    if r.user.Some? then
      var name := ExecPrefix + r.user.value + ExecSuffix;
      ghost var lo, hi := |ExecPrefix|, |name| - |ExecSuffix|;
      assert name[..lo] == ExecPrefix;
      assert name[hi..] == ExecSuffix;
      assert name[lo..hi] == r.user.value;
      Some(name)
    else None
  }

  /** Distinct users are given distinct exec dependencies. */
  lemma ExecDependencyInjective(r1: Resource, r2: Resource)
    requires r1.user.Some? && r2.user.Some?
    requires AutoExec(r1) == AutoExec(r2)
    ensures r1.user == r2.user
  {
  }

  /** The exec dependency exists exactly when the user dependency does, and names that user. */
  lemma ExecAndUserDependenciesAgree(r: Resource)
    ensures AutoExec(r).Some? <==> AutoUser(r).Some?
    ensures AutoExec(r).Some? ==> UserOfExecName(AutoExec(r).value) == AutoUser(r)
  {
  }

  /**
   * The files a resource requires, collected step by step: `path` always
   * comes first, even when it is `nil`; the home directory follows exactly
   * when `user` is set, and it is then never `nil`.
   */
  method AutoFile(r: Resource) returns (autos: seq<Option<string>>)
    ensures |autos| == if r.user.Some? then 2 else 1
    ensures autos[0] == r.path
    ensures r.user.Some? ==> autos[1] == EffectiveHome(r) && autos[1].Some?
    ensures WellFormed(r) ==> forall i :: 0 <= i < |autos| ==> autos[i].Some? && IsAbsolute(autos[i].value)
  {
    autos := [];
    autos := autos + [r.path];
    if r.user.Some? {
      autos := autos + [EffectiveHome(r)];
    }
  }

  /**
   * When the `system` check sees the final `user` (as in `ValidateResource`),
   * a system-scoped resource that passed it requires neither a user nor an exec.
   */
  lemma SystemScopedRequiresNoUser(r: Resource)
    requires r.system && ValidateSystem(r.system, r.user).Ok?
    ensures AutoUser(r).None? && AutoExec(r).None?
  {
  }

  // ---------------------------------------------------------------------
  // The whole resource

  /**
   * The invariants a constructed resource is meant to satisfy: a known
   * `ensure`, an absolute `path`, exactly one scope and, when `home` is
   * given, an absolute `home`.
   */
  predicate WellFormed(r: Resource) {
    DesiredEnsure(r).Ok?
    && r.path.Some? && IsAbsolute(r.path.value)
    && (r.system <==> r.user.None?)
    && (r.home.Some? ==> IsAbsolute(r.home.value))
  }

  /**
   * Every check run once, in declaration order, each scope check seeing the
   * final value of the other scope attribute; the first failure is reported.
   */
  function ValidateResource(r: Resource): (res: Result<(), Error>)
    ensures DesiredEnsure(r).Err? ==> res == Err(DesiredEnsure(r).error)
    ensures DesiredEnsure(r).Ok? && ValidatePath(r.path).Err? ==> res == ValidatePath(r.path)
    ensures (DesiredEnsure(r).Ok? && ValidatePath(r.path).Ok? && ValidateSystem(r.system, r.user).Err?)
              ==> res == ValidateSystem(r.system, r.user)
    ensures (DesiredEnsure(r).Ok? && ValidatePath(r.path).Ok? && ValidateSystem(r.system, r.user).Ok?
             && ValidateUser(r.user, r.system).Err?)
              ==> res == ValidateUser(r.user, r.system)
    ensures (DesiredEnsure(r).Ok? && ValidatePath(r.path).Ok? && ValidateSystem(r.system, r.user).Ok?
             && ValidateUser(r.user, r.system).Ok?)
              ==> res == ValidateHome(EffectiveHome(r))
  {
    var _ :- DesiredEnsure(r);
    var _ :- ValidatePath(r.path);
    var _ :- ValidateSystem(r.system, r.user);
    var _ :- ValidateUser(r.user, r.system);
    ValidateHome(EffectiveHome(r))
  }

  /** Once every check has run on the final values, they accept exactly the well-formed resources. */
  lemma ValidateResourceAcceptsWellFormed(r: Resource)
    ensures ValidateResource(r).Ok? <==> WellFormed(r)
  {
  }

  /** Both scopes, or neither, are reported as scope errors once `ensure` and `path` pass. */
  lemma ScopeErrorsReported(r: Resource)
    requires DesiredEnsure(r).Ok? && ValidatePath(r.path).Ok?
    ensures r.system && r.user.Some? ==> ValidateResource(r) == Err(ArgumentError(ScopeConflictMessage))
    ensures !r.system && r.user.None? ==> ValidateResource(r) == Err(ArgumentError(NoScopeMessage))
  {
  }

  /**
   * The scope checks depend on the order of assignment: a true `system`
   * checked while `user` is still unset passes, and the later `user` check
   * passes because `system` is true, so both scopes end up set.
   */
  lemma SystemCheckedBeforeUserAdmitsBoth(user: string)
    ensures ValidateSystem(true, None).Ok?
    ensures ValidateUser(Some(user), true).Ok?
    ensures ValidateSystem(true, Some(user)).Err?
  {
  }

  // ---------------------------------------------------------------------
  // ensure: the provider call made when the property is set

  /** The provider call a desired state leads to: `present` installs, `absent` removes. */
  function ApplyAction(desired: EnsureValue): (c: ProviderCall)
    ensures c == InstallCall <==> desired == Present
    ensures c == RemoveCall <==> desired == Absent
  {
    match desired
    case Present => InstallCall
    case Absent => RemoveCall
  }

  /** Setting `ensure` to its desired value: one provider call, as `ApplyAction` says. */
  method SetEnsure(provider: ProfileProvider, desired: EnsureValue)
    modifies provider
    ensures provider.calls == old(provider.calls) + [ApplyAction(desired)]
  {
    match desired
    case Present => provider.Install();
    case Absent => provider.Remove();
  }

  /**
   * Setting `ensure` adds exactly one install when `present` is desired and
   * exactly one remove when `absent` is, and never a refresh.
   */
  lemma {:induction false} SetEnsureCallsOnce(log: seq<ProviderCall>, desired: EnsureValue)
    ensures Occurrences(log + [ApplyAction(desired)], InstallCall)
         == Occurrences(log, InstallCall) + (if desired == Present then 1 else 0)
    ensures Occurrences(log + [ApplyAction(desired)], RemoveCall)
         == Occurrences(log, RemoveCall) + (if desired == Absent then 1 else 0)
    ensures Occurrences(log + [ApplyAction(desired)], RefreshCall) == Occurrences(log, RefreshCall)
  {
    var c := ApplyAction(desired);
    OccurrencesAppend(log, [c], InstallCall);
    OccurrencesAppend(log, [c], RemoveCall);
    OccurrencesAppend(log, [c], RefreshCall);
    assert [c][1..] == [];
  }

  // ---------------------------------------------------------------------
  // refresh

  datatype RefreshDecision = Reapply | Skip

  const SkipMessage: string := "Skipping refresh; profile is not present"

  /**
   * Refresh re-applies only a profile whose retrieved state is `present`.
   * `actual` is what retrieving `ensure` returned; `None` stands for any
   * value other than `present` and `absent`.
   */
  function RefreshAction(actual: Option<EnsureValue>): (d: RefreshDecision)
    ensures d == Reapply <==> actual == Some(Present)
  {
    if actual == Some(Present) then Reapply else Skip
  }

  /** The provider calls a refresh decision makes. */
  function RefreshCalls(d: RefreshDecision): (calls: seq<ProviderCall>) {
    if d == Reapply then [RefreshCall] else []
  }

  /**
   * Responding to a notification: one provider refresh when the profile is
   * present, otherwise no provider call and the skip message as a debug line.
   */
  method RefreshProfile(provider: ProfileProvider, actual: Option<EnsureValue>)
    returns (debug: seq<string>)
    modifies provider
    ensures provider.calls == old(provider.calls) + RefreshCalls(RefreshAction(actual))
    ensures debug == if actual == Some(Present) then [] else [SkipMessage]
  {
    if actual == Some(Present) {
      provider.Refresh();
      debug := [];
    } else {
      debug := [SkipMessage];
    }
  }

  /**
   * A refresh adds exactly one provider refresh when the profile is present
   * and no call at all otherwise; it never installs or removes.
   */
  lemma {:induction false} RefreshCallsOnlyWhenPresent(log: seq<ProviderCall>, actual: Option<EnsureValue>)
    ensures Occurrences(log + RefreshCalls(RefreshAction(actual)), RefreshCall)
         == Occurrences(log, RefreshCall) + (if actual == Some(Present) then 1 else 0)
    ensures log + RefreshCalls(RefreshAction(actual)) == log <==> actual != Some(Present)
    ensures Occurrences(log + RefreshCalls(RefreshAction(actual)), InstallCall) == Occurrences(log, InstallCall)
    ensures Occurrences(log + RefreshCalls(RefreshAction(actual)), RemoveCall) == Occurrences(log, RemoveCall)
  {
    var extra := RefreshCalls(RefreshAction(actual));
    OccurrencesAppend(log, extra, RefreshCall);
    OccurrencesAppend(log, extra, InstallCall);
    OccurrencesAppend(log, extra, RemoveCall);
    if extra != [] {
      assert extra[1..] == [];
      assert |log + extra| != |log|;
    } else {
      assert log + extra == log;
    }
  }
}
