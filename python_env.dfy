/** The environment handed to the Python subprocesses (src/AcroForm/PythonProcessEnv.php): the
    parent environment without the variables that redirect Python's module search, with the
    system binary directories put first on `PATH`. */
module PythonProcessEnv {
  import opened Wrappers
  import opened Text

  /** The variables `build` removes. */
  const PythonVariables: set<string> := {"PYTHONPATH", "PYTHONHOME", "VIRTUAL_ENV", "PYTHONUSERBASE", "PYTHONNOUSERSITE"}

  /** The directories put in front of `PATH`. */
  const SystemPath := "/usr/local/bin:/usr/bin:/bin"

  /** The new `PATH`: the system directories, then `:` and the old `PATH` when it was set and
      not empty. */
  function NewPath(env: map<string, string>): (p: string)
    ensures StartsWith(p, SystemPath)
    ensures "PATH" in env && env["PATH"] != "" ==> p == SystemPath + ":" + env["PATH"]
    ensures !("PATH" in env && env["PATH"] != "") ==> p == SystemPath
  {
    SystemPath + (if "PATH" in env && env["PATH"] != "" then ":" + env["PATH"] else "")
  }

  /** `build`, given what `getenv()` returned (`None` when it is not an array). Environment values
      are strings, so the closing `array_filter` against `false` keeps every entry. */
  method Build(getenv: Option<map<string, string>>) returns (env: map<string, string>)
    ensures getenv.None? ==> env == map[]
    ensures getenv.Some? ==>
      && (forall k :: k in PythonVariables ==> k !in env)
      && "PATH" in env && env["PATH"] == NewPath(getenv.value)
      && (forall k :: k in getenv.value && k !in PythonVariables && k != "PATH" ==> k in env && env[k] == getenv.value[k])
      && (forall k :: k in env ==> k in getenv.value || k == "PATH")
  {
    if getenv.None? {
      return map[];
    }
    env := getenv.value;
    env := env - PythonVariables;
    env := env["PATH" := SystemPath + (if "PATH" in env && env["PATH"] != "" then ":" + env["PATH"] else "")];
  }

  /** The old `PATH` survives at the end of the new one, after the system directories. */
  lemma OldPathIsKept(getenv: map<string, string>)
    requires "PATH" in getenv && getenv["PATH"] != ""
    ensures NewPath(getenv)[|SystemPath| + 1..] == getenv["PATH"]
    ensures NewPath(getenv)[..|SystemPath|] == SystemPath
  {
    assert NewPath(getenv) == SystemPath + ":" + getenv["PATH"];
  }
}
