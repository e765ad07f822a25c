# config_profile, modelled in Dafny

A model of the Puppet resource type `config_profile`. The type installs or removes a
macOS configuration profile (a mobileconfig plist). The profile is installed either for
the whole device (`system => true`) or for one user (`user => <name>`).

The model covers what the type decides by itself:

- the checks run when `path`, `system`, `user` and `home` are assigned;
- the `/Users/<user>` default for `home`;
- the `ensure` values, their aliases and their default;
- the names of the files, the user and the exec the resource depends on (autorequire);
- which provider call each `ensure` value leads to;
- when a refresh re-applies the profile.

Modules:

- `Wrappers` (`wrappers.dfy`): `Option` and `Result`.
- `ConfigProfile` (`config_profile.dfy`): the resource type itself.
  - The declared attributes form a `Resource` value, and the checks are functions
    returning `Result`.
  - It also holds the `home` default and the dependency inference. `AutoFile` builds
    its list step by step, as the source does.
  - Setting `ensure` (`SetEnsure`) and refreshing (`RefreshProfile`) are methods that
    append to the provider's call record. Each is specified by a pure decision function
    (`ApplyAction`, `RefreshAction`).
- `Provider` (`provider.dfy`): the provider is reduced to a class that records the
  calls it receives (`calls: seq<ProviderCall>`). It also holds `Occurrences`, which
  counts one kind of call in such a record.

Choices made where the source leaves something to a library:

- `Puppet::Util.absolute_path?` is taken in its POSIX reading: a path is absolute when
  it is non-empty and starts with `/` (`ConfigProfile.IsAbsolute`).
- Each scope check reads the other scope attribute as it stands when the check runs.
  That value is therefore a parameter of `ValidateSystem` and `ValidateUser`. The
  "exactly one scope" result (`ValidateResourceAcceptsWellFormed`) is stated only for
  `ValidateResource`, which runs every check once, each against the final values.
  `SystemCheckedBeforeUserAdmitsBoth` shows why that condition matters: a true `system`
  checked while `user` is still unset passes. The `user` check that follows then passes
  too, because `system` is already true.
- For user names without NUL bytes, the default home is built as
  `File.join('', 'Users', user)` builds it. One `/` is placed between the parts unless
  the next part already starts with `/`.
  - So a user name with a leading `/` shares its home with the same name without it:
    `bob` and `/bob` both get `/Users/bob` (`HomeDefaultAbsorbsLeadingSeparator`).
  - Two names share a default home exactly when they agree once one leading `/` is
    dropped (`HomeDefaultsAgreeExactly`).
- Ruby truthiness is followed. Every string is truthy, including the empty one, so a user
  named `""` passes the `user` check and gets the default home `/Users/`. `nil` is `None`,
  and it interpolates as the empty string in the `path` error message.
- The retrieved `ensure` state is an input to `RefreshAction`. `None` stands for any
  value other than `present` and `absent`.

## Model

| member | source | states |
|---|---|---|
| `ConfigProfile.NormalizeEnsure` | lib/puppet/type/config_profile.rb:41-42 | `present` and `installed` give `Present`. `absent` and `removed` give `Absent`. Any other name is an error naming it. |
| `ConfigProfile.DesiredEnsure` | lib/puppet/type/config_profile.rb:41-43 | A resource that leaves `ensure` out is to be installed (`Present`). A declared name goes through the alias table. |
| `ConfigProfile.ValidatePath` | lib/puppet/type/config_profile.rb:52-56 | `path` passes exactly when it is given and absolute. Otherwise the ArgumentError message embeds the offending value, with `nil` shown as empty. |
| `ConfigProfile.ValidateSystem` | lib/puppet/type/config_profile.rb:62-68 | A true `system` fails with "Scope error" exactly when `user` is currently set. Every other value passes. |
| `ConfigProfile.ValidateUser` | lib/puppet/type/config_profile.rb:73-79 | A `nil` user fails with "No scope defined" exactly when `system` is not currently true. Any user string passes. |
| `ConfigProfile.ValidateHome` | lib/puppet/type/config_profile.rb:87-91 | `home` passes exactly when it is absent or absolute. Otherwise the message names the value. |
| `ConfigProfile.HomeDefault` | lib/puppet/type/config_profile.rb:84-86 | The default exists exactly when `user` is set. It is then absolute. The user name can be read back from it after `/Users/`, less one leading `/`, which `File.join` absorbs. |
| `ConfigProfile.HomeDefaultAbsorbsLeadingSeparator` | lib/puppet/type/config_profile.rb:84-86 | For every name that does not start with `/`, `/<name>` gets the same default home as `<name>`. |
| `ConfigProfile.EffectiveHome` | lib/puppet/type/config_profile.rb:84-91 | `home` is the declared value if there is one, and the default otherwise. It is missing only when neither `home` nor `user` is given. A defaulted value always passes the `home` check. |
| `ConfigProfile.HomeDefaultsAgreeExactly` | lib/puppet/type/config_profile.rb:84-86 | Two user names share a default home exactly when they are equal once one leading `/` is dropped. So two names without a leading `/` share a home only when they are equal. |
| `ConfigProfile.AutoUser` | lib/puppet/type/config_profile.rb:101-103 | The user dependency is `user` when set and `nil` otherwise. |
| `ConfigProfile.AutoExec` | lib/puppet/type/config_profile.rb:107-109 | The exec dependency exists exactly when `user` is set. It is then `managed_<user>_home`, and the user can be read back from it. |
| `ConfigProfile.ExecDependencyInjective` | lib/puppet/type/config_profile.rb:107-109 | Resources for different users never depend on the same exec. |
| `ConfigProfile.ExecAndUserDependenciesAgree` | lib/puppet/type/config_profile.rb:101-109 | The exec dependency exists exactly when the user dependency does, and it names the same user. |
| `ConfigProfile.AutoFile` | lib/puppet/type/config_profile.rb:94-99 | The file list starts with `path`, even when `path` is `nil`. The home entry follows exactly when `user` is set, and it is then never `nil`. For a well-formed resource every entry is an absolute path. |
| `ConfigProfile.SystemScopedRequiresNoUser` | lib/puppet/type/config_profile.rb:62-68 | When the `system` check sees the final `user` (as in `ValidateResource`), a system-scoped resource that passed it has neither a user nor an exec dependency. |
| `ConfigProfile.ValidateResource` | lib/puppet/type/config_profile.rb:41-91 | When every check runs once on the final values, in declaration order, the first failing check's error is the one reported. When `ensure`, `path` and both scope checks pass, the result is the `home` check on the declared or defaulted `home`. |
| `ConfigProfile.ValidateResourceAcceptsWellFormed` | lib/puppet/type/config_profile.rb:41-91 | When every check runs on the final values, a resource is accepted exactly when `ensure` is known, `path` is absolute, exactly one scope is chosen, and a given `home` is absolute. |
| `ConfigProfile.ScopeErrorsReported` | lib/puppet/type/config_profile.rb:62-79 | When every check runs on the final values (`ValidateResource`) and `ensure` and `path` pass, both scopes fail with "Scope error" and neither scope fails with "No scope defined". |
| `ConfigProfile.SystemCheckedBeforeUserAdmitsBoth` | lib/puppet/type/config_profile.rb:62-79 | A true `system` checked before `user` is assigned passes, and so does the later user check. The same `system` checked after `user` fails. |
| `ConfigProfile.ApplyAction` | lib/puppet/type/config_profile.rb:31-39 | Desired `present` leads to an install call, and only it does. Desired `absent` leads to a remove call, and only it does. |
| `ConfigProfile.SetEnsure` | lib/puppet/type/config_profile.rb:31-39 | Setting `ensure` appends exactly the call `ApplyAction` names to the provider's record. |
| `ConfigProfile.SetEnsureCallsOnce` | lib/puppet/type/config_profile.rb:31-39 | Setting `ensure` adds one install exactly when `present` is desired and one remove exactly when `absent` is. It never adds a refresh. |
| `ConfigProfile.RefreshAction` | lib/puppet/type/config_profile.rb:113-120 | A refresh re-applies exactly when the retrieved state is `present`. |
| `ConfigProfile.RefreshProfile` | lib/puppet/type/config_profile.rb:113-120 | When present, a refresh makes one provider refresh and logs nothing. Otherwise it makes no call and logs "Skipping refresh; profile is not present". |
| `ConfigProfile.RefreshCallsOnlyWhenPresent` | lib/puppet/type/config_profile.rb:113-120 | A refresh adds one provider refresh when present and leaves the record unchanged otherwise. It never installs or removes. |

## Left out

- The provider's own work is not modelled. Install, remove, refresh and retrieve run the `profiles` command and check logins with `who`. Here the provider only records the calls it receives, and the retrieved state is an input.
- Puppet's parameter machinery is not modelled. This covers the order in which attributes are assigned, whether a check runs for an attribute that is not declared, `namevar` handling and lazy `newattr`. The model takes the current value of the other scope attribute as a parameter instead.
- The boolean coercion that `Puppet::Parameter::Boolean` performs through `super` is not modelled. `system` is taken as an already-coerced bool, and the plain `super` of `user` is taken to accept every value.
- The Windows and drive-letter readings of `absolute_path?` are not modelled. The model uses the POSIX rule only.
- Only the POSIX separator `/` is considered when the default home is joined.
- HomeDefault: errors that `File.join` raises are not modelled. It raises `ArgumentError` for a user name containing a NUL byte, and it also raises on incompatible string encodings. For such names the model still returns `/Users/` followed by the name.
- Event autogeneration (the `nil` return of the `ensure` blocks, `:invalidate_refreshes`) is left to the host engine. So is the decision to call `SetEnsure` only when the retrieved state differs from the desired one.
- The host engine's debug logging is not modelled. The skip message is returned as a value instead.
- Resolving autorequire names to catalog resources is left to the host engine.
- `InvalidEnsure`: the host engine rejects names outside the declared values with its own message, which is not part of this model. Only the rejected name is kept.
