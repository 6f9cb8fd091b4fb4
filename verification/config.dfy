/** The process environment as a value, and the fail-fast check both scripts
    run over their required settings. */
module Config {
  import opened Wrappers
  import opened Errors

  /** Environment variables; a name that is absent is unset. */
  type Env = map<string, string>

  /** Python's truthiness of `os.getenv(name)`: present and non-empty. */
  predicate IsSet(env: Env, name: string) {
    name in env && env[name] != ""
  }

  /** `os.getenv(name, default)`: the default applies only when the name is
      absent, so a name set to the empty string yields the empty string. */
  function GetEnv(env: Env, name: string, default: string): string {
    if name in env then env[name] else default
  }

  /** The embedding model both scripts fall back on. */
  const DefaultEmbeddingModel: string := "text-embedding-3-small"

  /** Position of the first unset name in `names`, or `|names|` when all are set. */
  function FirstUnsetIndex(env: Env, names: seq<string>): (n: nat)
    ensures n <= |names|
    ensures forall j :: 0 <= j < n ==> IsSet(env, names[j])
    ensures n < |names| ==> !IsSet(env, names[n])
  {
    if |names| == 0 then 0
    else if !IsSet(env, names[0]) then 0
    else 1 + FirstUnsetIndex(env, names[1..])
  }

  /** The loop `for k in names: if not os.getenv(k): raise RuntimeError(...)`. */
  function CheckRequired(env: Env, names: seq<string>): (r: Result<(), Failure>)
    ensures r.Success? <==> forall j :: 0 <= j < |names| ==> IsSet(env, names[j])
  {
    var n := FirstUnsetIndex(env, names);
    if n < |names| then Failure(MissingSetting(names[n])) else Success(())
  }

  /** The check reports exactly the first unset name, in list order. */
  lemma CheckRequiredNamesFirstUnset(env: Env, names: seq<string>, i: nat)
    requires i < |names|
    requires forall j :: 0 <= j < i ==> IsSet(env, names[j])
    requires !IsSet(env, names[i])
    ensures CheckRequired(env, names) == Failure(MissingSetting(names[i]))
  {
    var n := FirstUnsetIndex(env, names);
    assert n == i;
  }

  /** Appending further required names never changes which of the earlier
      names is reported. */
  lemma CheckRequiredPrefix(env: Env, names: seq<string>, more: seq<string>)
    requires CheckRequired(env, names).Failure?
    ensures CheckRequired(env, names + more) == CheckRequired(env, names)
  {
    var n := FirstUnsetIndex(env, names);
    assert (names + more)[n] == names[n];
    assert forall j :: 0 <= j < n ==> (names + more)[j] == names[j];
    CheckRequiredNamesFirstUnset(env, names + more, n);
  }
}
