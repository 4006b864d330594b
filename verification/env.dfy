/**
 The environment handed to the analyzer: the process environment without
 the two variables a git hook sets to point at another checkout.
 */
module Env {

  const GitDir: string := "GIT_DIR"
  const GitWorkTree: string := "GIT_WORK_TREE"

  /** The variables the runner strips before starting the analyzer. */
  const Overrides: set<string> := {GitDir, GitWorkTree}

  /** The cleaned environment: every variable except the two overrides, each
      with its original value. */
  function Clean(env: map<string, string>): (r: map<string, string>)
    ensures GitDir !in r && GitWorkTree !in r
    ensures forall k :: k in env && k != GitDir && k != GitWorkTree ==> k in r && r[k] == env[k]
    ensures forall k :: k in r ==> k in env
  {
    map k | k in env && k !in Overrides :: env[k]
  }

  /** The keys left are exactly the original keys minus the two overrides. */
  lemma CleanKeys(env: map<string, string>)
    ensures Clean(env).Keys == env.Keys - Overrides
  {
  }

  /** Removing the overrides one at a time gives the same environment. */
  lemma CleanIsTwoRemovals(env: map<string, string>)
    ensures Clean(env) == env - {GitDir} - {GitWorkTree}
  {
  }

  /** An environment a git hook did not touch passes through unchanged. */
  lemma CleanWithoutOverrides(env: map<string, string>)
    requires GitDir !in env && GitWorkTree !in env
    ensures Clean(env) == env
  {
  }

  /** Cleaning twice is cleaning once. */
  lemma CleanIdempotent(env: map<string, string>)
    ensures Clean(Clean(env)) == Clean(env)
  {
  }
}
