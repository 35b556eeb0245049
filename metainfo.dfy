/**
 * The packaging metadata: a dictionary whose keys are upper-cased on the way
 * in and on the way out, first filled from the environment variables named
 * `LDNP_META_[<packager>_]<identifier>`.
 */
module Meta {
  import opened Wrappers
  import opened Text

  /**
   * The environment, in the order `os.environ.items()` yields it.  The
   * sequence stands for a dictionary: a real environment holds each name once.
   * A sequence that repeats a name is read as a dictionary built from it in
   * order, where the later entry replaces the earlier one.
   */
  type Environment = seq<(string, string)>

  /** `os.environ.get(name)`: the value of the variable called `name`, read as that dictionary does. */
  function EnvGet(environ: Environment, name: string): (r: Option<string>)
    ensures r.Some? <==> exists i :: 0 <= i < |environ| && environ[i].0 == name
    ensures r.Some? ==> exists i :: (0 <= i < |environ| && environ[i] == (name, r.value) &&
      forall j :: i < j < |environ| ==> environ[j].0 != name)
    decreases |environ|
  {
    if environ == [] then None
    else
      var last := |environ| - 1;
      if environ[last].0 == name then
        assert environ[last] == (name, environ[last].1);
        Some(environ[last].1)
      else
        var init := environ[..last];
        var r := EnvGet(init, name);
        assert forall i :: 0 <= i < last ==> init[i] == environ[i];
        r
  }

  /** A variable that is set to a non-empty value, the test `if os.environ.get(name):` makes. */
  predicate EnvSet(environ: Environment, name: string) {
    EnvGet(environ, name).Some? && EnvGet(environ, name).value != ""
  }

  const EnvPrefix: string := "LDNP_META_"

  /** `LDNP_META_<packager>_`, e.g. `LDNP_META_RPM_`. */
  function PackagerEnvPrefix(packagerPrefix: string): string {
    EnvPrefix + packagerPrefix + "_"
  }

  /**
   * The key an environment variable is stored under: its name without the
   * packager-specific prefix when it has one, otherwise without `LDNP_META_`,
   * upper-cased; None for a variable that is not metadata.
   */
  function StoredKey(packagerPrefix: string, name: string): (r: Option<string>)
    ensures r.Some? <==> StartsWith(name, EnvPrefix)
    ensures StartsWith(name, PackagerEnvPrefix(packagerPrefix)) ==>
      r == Some(Upper(name[|PackagerEnvPrefix(packagerPrefix)|..]))
    ensures StartsWith(name, EnvPrefix) && !StartsWith(name, PackagerEnvPrefix(packagerPrefix)) ==>
      r == Some(Upper(name[|EnvPrefix|..]))
  {
    if !StartsWith(name, EnvPrefix) then None
    else if StartsWith(name, PackagerEnvPrefix(packagerPrefix)) then
      Some(Upper(RemovePrefix(name, PackagerEnvPrefix(packagerPrefix))))
    else Some(Upper(RemovePrefix(name, EnvPrefix)))
  }

  /** The dictionary the constructor's loop builds from `environ`, one variable after the other. */
  function Populate(packagerPrefix: string, environ: Environment): map<string, string>
    decreases |environ|
  {
    if environ == [] then map[]
    else
      var before := Populate(packagerPrefix, environ[..|environ| - 1]);
      var (name, value) := environ[|environ| - 1];
      match StoredKey(packagerPrefix, name)
      case None => before
      case Some(k) => before[k := value]
  }

  /** Variable `i` is the last one of `environ` stored under `k`. */
  predicate LastFor(packagerPrefix: string, environ: Environment, k: string, i: int) {
    0 <= i < |environ| && StoredKey(packagerPrefix, environ[i].0) == Some(k) &&
    forall j :: i < j < |environ| ==> StoredKey(packagerPrefix, environ[j].0) != Some(k)
  }

  /**
   * A key is present exactly when some variable is stored under it, and its
   * value is that of the last such variable: a packager-specific variable wins
   * over a generic one only when it comes later in the environment.
   */
  lemma {:induction false} PopulateSpec(packagerPrefix: string, environ: Environment, k: string)
    ensures k in Populate(packagerPrefix, environ) <==>
      exists i :: 0 <= i < |environ| && StoredKey(packagerPrefix, environ[i].0) == Some(k)
    ensures k in Populate(packagerPrefix, environ) ==>
      exists i :: LastFor(packagerPrefix, environ, k, i) && Populate(packagerPrefix, environ)[k] == environ[i].1
    decreases |environ|
  {
    if environ != [] {
      var n := |environ| - 1;
      var init := environ[..n];
      PopulateSpec(packagerPrefix, init, k);
      assert forall i :: 0 <= i < n ==> init[i] == environ[i];
      if StoredKey(packagerPrefix, environ[n].0) == Some(k) {
        assert LastFor(packagerPrefix, environ, k, n);
      } else if k in Populate(packagerPrefix, environ) {
        var i :| LastFor(packagerPrefix, init, k, i) && Populate(packagerPrefix, init)[k] == init[i].1;
        assert LastFor(packagerPrefix, environ, k, i);
      }
    }
  }

  /**
   * The environment order decides, whatever the comment at the loop says: a
   * generic variable that comes after a packager-specific one for the same
   * key, and is the last for it, gives the stored value.
   */
  lemma PrecedenceFollowsOrder(packagerPrefix: string, environ: Environment, i: int, j: int)
    requires 0 <= i < j < |environ|
    requires StartsWith(environ[i].0, PackagerEnvPrefix(packagerPrefix))
    requires StartsWith(environ[j].0, EnvPrefix) && !StartsWith(environ[j].0, PackagerEnvPrefix(packagerPrefix))
    requires StoredKey(packagerPrefix, environ[i].0) == StoredKey(packagerPrefix, environ[j].0)
    requires forall m :: j < m < |environ| ==> StoredKey(packagerPrefix, environ[m].0) != StoredKey(packagerPrefix, environ[j].0)
    ensures var k := StoredKey(packagerPrefix, environ[j].0).value;
      k in Populate(packagerPrefix, environ) && Populate(packagerPrefix, environ)[k] == environ[j].1
  {
    var k := StoredKey(packagerPrefix, environ[j].0).value;
    PopulateSpec(packagerPrefix, environ, k);
    assert LastFor(packagerPrefix, environ, k, j);
    var m :| LastFor(packagerPrefix, environ, k, m) && Populate(packagerPrefix, environ)[k] == environ[m].1;
    assert m == j;
  }

  /** The packager-specific variables of `environ`, in their order. */
  function Specific(packagerPrefix: string, environ: Environment): (r: Environment)
    ensures forall x :: x in r <==> x in environ && StartsWith(x.0, PackagerEnvPrefix(packagerPrefix))
    decreases |environ|
  {
    if environ == [] then []
    else
      var rest := Specific(packagerPrefix, environ[1..]);
      assert forall x :: x in environ[1..] ==> x in environ;
      assert forall x :: x in environ ==> x == environ[0] || x in environ[1..];
      if StartsWith(environ[0].0, PackagerEnvPrefix(packagerPrefix)) then [environ[0]] + rest else rest
  }

  /**
   * The dictionary as the comment at the loop means it: the generic variables
   * first, then the packager-specific ones over them.
   */
  function PopulatePreferring(packagerPrefix: string, environ: Environment): map<string, string> {
    Populate(packagerPrefix, environ) + Populate(packagerPrefix, Specific(packagerPrefix, environ))
  }

  /**
   * In the corrected dictionary a packager-specific variable always takes
   * precedence: when one is stored under `k`, the value of `k` is that of a
   * packager-specific variable, the last of them for `k`.
   */
  lemma PreferringSpecificWins(packagerPrefix: string, environ: Environment, k: string, i: int)
    requires 0 <= i < |environ| && StartsWith(environ[i].0, PackagerEnvPrefix(packagerPrefix))
    requires StoredKey(packagerPrefix, environ[i].0) == Some(k)
    ensures k in PopulatePreferring(packagerPrefix, environ)
    ensures exists m ::
      LastFor(packagerPrefix, Specific(packagerPrefix, environ), k, m) &&
      PopulatePreferring(packagerPrefix, environ)[k] == Specific(packagerPrefix, environ)[m].1 &&
      StartsWith(Specific(packagerPrefix, environ)[m].0, PackagerEnvPrefix(packagerPrefix))
  {
    var specific := Specific(packagerPrefix, environ);
    assert environ[i] in environ;
    assert environ[i] in specific;
    var j :| 0 <= j < |specific| && specific[j] == environ[i];
    PopulateSpec(packagerPrefix, specific, k);
    assert k in Populate(packagerPrefix, specific);
    var m :| LastFor(packagerPrefix, specific, k, m) && Populate(packagerPrefix, specific)[k] == specific[m].1;
    assert PopulatePreferring(packagerPrefix, environ)[k] == Populate(packagerPrefix, specific)[k];
    assert specific[m] in specific;
    assert StartsWith(specific[m].0, PackagerEnvPrefix(packagerPrefix));
    assert LastFor(packagerPrefix, specific, k, m) &&
      PopulatePreferring(packagerPrefix, environ)[k] == specific[m].1 &&
      StartsWith(specific[m].0, PackagerEnvPrefix(packagerPrefix));
  }

  class MetaInfo {
    var data: map<string, string>

    /** Fills the dictionary from the environment. */
    constructor (packagerPrefix: string, environ: Environment)
      ensures data == Populate(packagerPrefix, environ)
    {
      data := map[];
      new;
      var i := 0;
      while i < |environ|
        invariant 0 <= i <= |environ|
        invariant data == Populate(packagerPrefix, environ[..i])
      {
        var (name, value) := environ[i];
        if StartsWith(name, EnvPrefix) {
          var fixedName := if StartsWith(name, PackagerEnvPrefix(packagerPrefix))
            then RemovePrefix(name, PackagerEnvPrefix(packagerPrefix))
            else RemovePrefix(name, EnvPrefix);
          Set(fixedName, value);
        }
        assert environ[..i + 1][..i] == environ[..i];
        i := i + 1;
      }
      assert environ[..i] == environ;
    }

    /** `self[key] = value`: stored under the upper-cased key. */
    method Set(key: string, value: string)
      modifies this
      ensures data == old(data)[Upper(key) := value]
    {
      data := data[Upper(key) := value];
    }

    /** `self[identifier]`: KeyError naming the upper-cased identifier when it is missing. */
    function Lookup(identifier: string): (r: Result<string>)
      reads this
      ensures r.Ok? <==> Upper(identifier) in data
      ensures r.Ok? ==> r.value == data[Upper(identifier)]
      ensures r.Err? ==> r.error == KeyError("Could not find " + Upper(identifier))
    {
      var key := Upper(identifier);
      if key in data then Ok(data[key])
      else
        UpperIdempotent(identifier);
        Err(KeyError("Could not find " + Upper(key)))
    }

    /** `get(key, default)`: the stored value, or `default`; never raises. */
    function Get(key: string, default: Option<string>): (r: Option<string>)
      reads this
      ensures Lookup(key).Ok? ==> r == Some(Lookup(key).value)
      ensures Lookup(key).Err? ==> r == default
    {
      match Lookup(key)
      case Ok(v) => Some(v)
      case Err(_) => default
    }

    /** `setdefault(key, default)`: stores `default` whether or not `key` was already set. */
    method SetDefault(key: string, default: string)
      modifies this
      ensures data == old(data)[Upper(key) := default]
    {
      // the membership test that precedes the assignment in the source does nothing
      Set(key, default);
    }
  }
}
