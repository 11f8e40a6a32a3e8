/**
  The search-path rule every entry point applies before it runs a tool: put
  the tool directory in front of PATH unless PATH already contains it. The
  test is Python's substring test `bin not in PATH`, not a comparison of
  PATH's colon-separated entries.
*/
module Environment {

  import opened Text

  /** `os.environ.get(key, default)` on a snapshot of the environment. */
  function Lookup(env: map<string, string>, key: string, default: string): (v: string)
    ensures key in env ==> v == env[key]
    ensures key !in env ==> v == default
  {
    if key in env then env[key] else default
  }

  /** The new PATH after `if bin not in path: path = f"{bin}:{path}"`. */
  function PrependToPath(bin: string, path: string): (newPath: string)
    ensures Contains(newPath, bin)
    ensures |path| <= |newPath| && newPath[|newPath| - |path|..] == path
    ensures Contains(path, bin) ==> newPath == path
  {
    if Contains(path, bin) then path
    else
      assert OccursAt(bin + ":" + path, bin, 0);
      bin + ":" + path
  }

  /** A second call changes nothing. */
  lemma PrependIdempotent(bin: string, path: string)
    ensures PrependToPath(bin, PrependToPath(bin, path)) == PrependToPath(bin, path)
  {
  }

  /** When it does prepend, `bin` becomes the first directory searched and the
      old entries follow in their old order (for a `bin` without a colon). */
  lemma PrependPutsBinFirst(bin: string, path: string)
    requires !Contains(path, bin) && ':' !in bin
    ensures SplitOn(PrependToPath(bin, path), ':') == [bin] + SplitOn(path, ':')
  {
    SplitCons(bin, ':', path);
  }

  /** The substring test is satisfied by a longer directory name: when PATH's
      first entry is `bin` followed by more characters, nothing is prepended,
      although `bin` itself is not that entry. */
  lemma PrependSkippedForLongerEntry(bin: string, more: string, rest: string)
    requires more != "" && ':' !in bin + more
    ensures PrependToPath(bin, bin + more + ":" + rest) == bin + more + ":" + rest
    ensures SplitOn(bin + more + ":" + rest, ':')[0] == bin + more != bin
  {
    var path := bin + more + ":" + rest;
    assert OccursAt(path, bin, 0);
    SplitCons(bin + more, ':', rest);
  }

  /** `setup_environment`'s PATH update applied to an environment snapshot; a
      missing PATH reads as the empty string. */
  function SetupPath(env: map<string, string>, bin: string): (env': map<string, string>)
    ensures "PATH" in env' && Contains(env'["PATH"], bin)
    ensures env'["PATH"] == PrependToPath(bin, Lookup(env, "PATH", ""))
    ensures forall k :: k in env && k != "PATH" ==> k in env' && env'[k] == env[k]
    ensures env'.Keys == env.Keys + {"PATH"}
  {
    env["PATH" := PrependToPath(bin, Lookup(env, "PATH", ""))]
  }

  /** Running the setup twice leaves the environment as one run left it. */
  lemma SetupPathIdempotent(env: map<string, string>, bin: string)
    ensures SetupPath(SetupPath(env, bin), bin) == SetupPath(env, bin)
  {
    PrependIdempotent(bin, Lookup(env, "PATH", ""));
  }

  /** The variable the elevation-data service reads its key from. */
  const ApiKeyVar: string := "OPENTOPOGRAPHY_API_KEY"

  /** `setup_environment`'s changes to the environment: the PATH update, then
      the API key, set whatever it was before. */
  function SetupEnvironment(env: map<string, string>, bin: string, apiKey: string): (env': map<string, string>)
    ensures env'.Keys == env.Keys + {"PATH", ApiKeyVar}
    ensures Contains(env'["PATH"], bin) && env'[ApiKeyVar] == apiKey
    ensures env'["PATH"] == PrependToPath(bin, Lookup(env, "PATH", ""))
    ensures forall k :: k in env && k != "PATH" && k != ApiKeyVar ==> env'[k] == env[k]
  {
    assert ApiKeyVar != "PATH" by { assert |ApiKeyVar| != |"PATH"|; }
    SetupPath(env, bin)[ApiKeyVar := apiKey]
  }

  /** Running the whole setup twice leaves the environment as one run left it. */
  lemma SetupEnvironmentIdempotent(env: map<string, string>, bin: string, apiKey: string)
    ensures SetupEnvironment(SetupEnvironment(env, bin, apiKey), bin, apiKey) == SetupEnvironment(env, bin, apiKey)
  {
    PrependIdempotent(bin, Lookup(env, "PATH", ""));
  }

}
