/**
 * The option pipeline of the pinch-zoom component: an Angular change set is
 * flattened into one option object (getProperties), legacy option names are
 * renamed through the backward-compatibility table (renameProperties), and the
 * result is laid over the default options (applyOptionsDefault).
 */
module PinchZoomOptions {
  import opened JsValues

  /** One entry of an Angular change set: an input's name and its `currentValue`. */
  datatype Change = Change(key: string, currentValue: Value)

  /**
   * What getProperties produces: the flattened value, or the TypeError that a
   * property write onto a non-object throws (class bodies are strict-mode code).
   */
  datatype Flattened = Flat(value: Value) | TypeError

  /** The input whose value replaces everything gathered so far. */
  const PropertiesKey := "properties"

  /** The entries of a change set are the properties of one object, so their names differ. */
  predicate DistinctKeys(changes: seq<Change>) {
    forall i, j | 0 <= i < j < |changes| :: KeyAt(changes, i) != KeyAt(changes, j)
  }

  /**
   * The name of entry `i`. It is a function of its own so that `DistinctKeys`
   * quantifies over `KeyAt` terms only: a trigger on `changes[i].key` would fire
   * on every entry read in the proofs about getProperties and slow them down.
   */
  function KeyAt(changes: seq<Change>, i: nat): string
    requires i < |changes|
  {
    changes[i].key
  }

  /** The position of the last `properties` entry among the first `n` entries, or -1. */
  function PropertiesIndex(changes: seq<Change>, n: nat): (p: int)
    requires n <= |changes|
    ensures -1 <= p < n
    ensures p >= 0 ==> changes[p].key == PropertiesKey
    ensures forall j | p < j < n :: changes[j].key != PropertiesKey
  {
    if n == 0 then -1
    else if changes[n - 1].key == PropertiesKey then n - 1
    else PropertiesIndex(changes, n - 1)
  }

  /** The value getProperties builds on after `n` entries: the `properties` entry's value, or a fresh `{}`. */
  function Base(changes: seq<Change>, n: nat): Value
    requires n <= |changes|
  {
    var p := PropertiesIndex(changes, n);
    if p >= 0 then changes[p].currentValue else Obj(map[])
  }

  /** The names of the entries, among the first `n`, that come after the `properties` entry. */
  function LaterKeys(changes: seq<Change>, n: nat): set<string>
    requires n <= |changes|
  {
    var p := PropertiesIndex(changes, n);
    set j | p < j < n :: changes[j].key
  }

  /**
   * `v` is what getProperties holds after the first `n` entries, when nothing
   * has thrown: the base with every later entry written on top of it.
   */
  ghost predicate IsFlattening(changes: seq<Change>, n: nat, v: Value)
    requires n <= |changes|
  {
    var p, base := PropertiesIndex(changes, n), Base(changes, n);
    && (!base.Obj? ==> v == base && LaterKeys(changes, n) == {})
    && (base.Obj? ==>
          && v.Obj?
          && v.fields.Keys == base.fields.Keys + LaterKeys(changes, n)
          && (forall j | p < j < n :: v.fields[changes[j].key] == changes[j].currentValue)
          && (forall k | k in base.fields && k !in LaterKeys(changes, n) :: v.fields[k] == base.fields[k]))
  }

  /**
   * getProperties: walks the change set in its enumeration order. Every entry
   * other than `properties` writes its current value under its name; the
   * `properties` entry replaces all that was gathered, so the result depends on
   * the order. Writing onto a `properties` value that is not an object throws.
   */
  method GetProperties(changes: seq<Change>) returns (r: Flattened)
    requires DistinctKeys(changes)
    ensures r.TypeError? <==> !Base(changes, |changes|).Obj? && LaterKeys(changes, |changes|) != {}
    ensures r.Flat? ==> IsFlattening(changes, |changes|, r.value)
  {
    var properties := Obj(map[]);
    var i := 0;
    while i < |changes|
      invariant 0 <= i <= |changes|
      invariant IsFlattening(changes, i, properties)
    {
      var prop := changes[i].key;
      if prop != PropertiesKey {
        if !properties.Obj? {
          ThrowStep(changes, i, properties);
          return TypeError;
        }
        WriteStep(changes, i, properties);
        properties := Obj(properties.fields[prop := changes[i].currentValue]);
      }
      if prop == PropertiesKey {
        ReplaceStep(changes, i);
        properties := changes[i].currentValue;
      }
      i := i + 1;
    }
    r := Flat(properties);
  }

  /** A `properties` entry starts the flattening afresh from its own value. */
  lemma ReplaceStep(changes: seq<Change>, i: nat)
    requires i < |changes| && changes[i].key == PropertiesKey
    ensures IsFlattening(changes, i + 1, changes[i].currentValue)
  {
    assert PropertiesIndex(changes, i + 1) == i;
    assert LaterKeys(changes, i + 1) == {};
  }

  /** Writing onto a non-object base throws, and the base stays the final one. */
  lemma ThrowStep(changes: seq<Change>, i: nat, v: Value)
    requires DistinctKeys(changes)
    requires i < |changes| && changes[i].key != PropertiesKey
    requires !v.Obj? && IsFlattening(changes, i, v)
    ensures !Base(changes, |changes|).Obj? && LaterKeys(changes, |changes|) != {}
  {
    LaterEntriesKeepBase(changes, i);
    assert PropertiesIndex(changes, |changes|) < i;
    assert changes[i].key in LaterKeys(changes, |changes|);
  }

  /** Once a `properties` entry has been seen, no later entry changes the base (names are distinct). */
  lemma {:induction false} LaterEntriesKeepBase(changes: seq<Change>, i: nat)
    requires DistinctKeys(changes)
    requires i <= |changes|
    requires PropertiesIndex(changes, i) >= 0
    ensures PropertiesIndex(changes, |changes|) == PropertiesIndex(changes, i)
    decreases |changes| - i
  {
    if i < |changes| {
      var p := PropertiesIndex(changes, i);
      assert KeyAt(changes, p) != KeyAt(changes, i);
      LaterEntriesKeepBase(changes, i + 1);
    }
  }

  /** The names after the `properties` entry grow by one with each entry that is not `properties`. */
  lemma LaterKeysStep(changes: seq<Change>, i: nat)
    requires i < |changes| && changes[i].key != PropertiesKey
    ensures PropertiesIndex(changes, i + 1) == PropertiesIndex(changes, i)
    ensures LaterKeys(changes, i + 1) == LaterKeys(changes, i) + {changes[i].key}
  {
    var p := PropertiesIndex(changes, i);
    forall k | k in LaterKeys(changes, i + 1)
      ensures k in LaterKeys(changes, i) + {changes[i].key}
    {
      var j :| p < j < i + 1 && changes[j].key == k;
      if j < i {
        assert k in LaterKeys(changes, i);
      }
    }
    forall k | k in LaterKeys(changes, i)
      ensures k in LaterKeys(changes, i + 1)
    {
      var j :| p < j < i && changes[j].key == k;
      assert p < j < i + 1;
    }
    assert p < i;
  }

  /** Writing entry `i` (not `properties`) onto an object extends the flattening by that entry. */
  lemma WriteStep(changes: seq<Change>, i: nat, v: Value)
    requires DistinctKeys(changes)
    requires i < |changes| && changes[i].key != PropertiesKey
    requires v.Obj? && IsFlattening(changes, i, v)
    ensures IsFlattening(changes, i + 1, Obj(v.fields[changes[i].key := changes[i].currentValue]))
  {
    var p, key := PropertiesIndex(changes, i), changes[i].key;
    LaterKeysStep(changes, i);
    var base := Base(changes, i);
    assert Base(changes, i + 1) == base;
    assert base.Obj?;
    var w := v.fields[key := changes[i].currentValue];
    assert w.Keys == base.fields.Keys + LaterKeys(changes, i + 1);
    forall j | p < j < i + 1
      ensures w[changes[j].key] == changes[j].currentValue
    {
      if j < i {
        assert KeyAt(changes, j) != KeyAt(changes, i);
      }
    }
    forall k | k in base.fields && k !in LaterKeys(changes, i + 1)
      ensures w[k] == base.fields[k]
    {
      assert k != key;
    }
  }

  /** A legacy option name: the compatibility table maps it to a truthy (non-empty) new name. */
  predicate IsLegacy(table: map<string, string>, key: string) {
    key in table && table[key] != ""
  }

  /** No new name is itself a legacy name, so a renamed option is never renamed again. */
  predicate TargetsNotLegacy(table: map<string, string>) {
    forall k | k in table && IsLegacy(table, k) :: !IsLegacy(table, table[k])
  }

  /** The legacy names among `keys`. */
  function LegacyKeys(table: map<string, string>, keys: set<string>): set<string> {
    set k | k in keys && IsLegacy(table, k)
  }

  /** The new names of the legacy names among `keys`. */
  function RenameTargets(table: map<string, string>, keys: set<string>): set<string> {
    set k | k in keys && IsLegacy(table, k) :: table[k]
  }

  /** The values of the legacy options among `keys` whose new name is `t`. */
  function RenameSources(options: Options, table: map<string, string>, keys: set<string>, t: string): set<Value> {
    set k | k in keys && k in options && IsLegacy(table, k) && table[k] == t :: options[k]
  }

  /** `k` is the only legacy option of `options` that the table sends to its new name. */
  predicate UniqueTarget(options: Options, table: map<string, string>, k: string)
    requires IsLegacy(table, k)
  {
    forall j | j in options && IsLegacy(table, j) && table[j] == table[k] :: j == k
  }

  /**
   * `r` is the option object after the names in `done` have been visited: the
   * visited legacy names are gone, their new names hold the value of one of
   * them, and every other option still has its old value.
   */
  ghost predicate RenamedSoFar(options: Options, table: map<string, string>, done: set<string>, r: Options) {
    && r.Keys == (options.Keys - LegacyKeys(table, done)) + RenameTargets(table, done)
    && (forall k | k in r && k !in RenameTargets(table, done) :: k in options && r[k] == options[k])
    && (forall t | t in RenameTargets(table, done) :: r[t] in RenameSources(options, table, done, t))
  }

  /**
   * `r` is `options` renamed as renameProperties promises: every legacy name is
   * gone and its new name is there; an option that is neither legacy nor a new
   * name keeps its value; a new name holds the value of one of its legacy
   * sources, and exactly that value when it has only one source.
   */
  ghost predicate IsRenaming(options: Options, table: map<string, string>, r: Options) {
    && r.Keys == (options.Keys - LegacyKeys(table, options.Keys)) + RenameTargets(table, options.Keys)
    && (forall k | k in options && !IsLegacy(table, k) && k !in RenameTargets(table, options.Keys) :: r[k] == options[k])
    && (forall t | t in RenameTargets(table, options.Keys) :: r[t] in RenameSources(options, table, options.Keys, t))
    && (forall k | k in options && IsLegacy(table, k) && UniqueTarget(options, table, k) :: r[table[k]] == options[k])
  }

  /**
   * renameProperties: one pass over the option names, in an enumeration order
   * this model leaves open. Each legacy option is copied to its new name and
   * deleted; every other option is left alone.
   */
  method RenameProperties(options: Options, table: map<string, string>) returns (r: Options)
    requires TargetsNotLegacy(table)
    ensures IsRenaming(options, table, r)
  {
    r := options;
    var remaining := options.Keys;
    assert LegacyKeys(table, {}) == {} && RenameTargets(table, {}) == {};
    while remaining != {}
      invariant remaining <= options.Keys
      invariant RenamedSoFar(options, table, options.Keys - remaining, r)
      decreases remaining
    {
      var prop :| prop in remaining;
      ghost var done := options.Keys - remaining;
      RenameStep(options, table, done, r, prop);
      if IsLegacy(table, prop) {
        r := r[table[prop] := r[prop]] - {prop};
      }
      remaining := remaining - {prop};
      assert options.Keys - remaining == done + {prop};
    }
    assert options.Keys - remaining == options.Keys;
    RenameDone(options, table, r);
  }

  /** After every name has been visited, the option object is renamed as renameProperties promises. */
  lemma RenameDone(options: Options, table: map<string, string>, r: Options)
    requires RenamedSoFar(options, table, options.Keys, r)
    ensures IsRenaming(options, table, r)
  {
    forall k | k in options && IsLegacy(table, k) && UniqueTarget(options, table, k)
      ensures r[table[k]] == options[k]
    {
      assert table[k] in RenameTargets(table, options.Keys);
      assert RenameSources(options, table, options.Keys, table[k]) == {options[k]};
    }
  }

  /** Visiting one more option name keeps RenamedSoFar, whether or not the name is legacy. */
  lemma RenameStep(options: Options, table: map<string, string>, done: set<string>, r: Options, prop: string)
    requires TargetsNotLegacy(table)
    requires done <= options.Keys && prop in options && prop !in done
    requires RenamedSoFar(options, table, done, r)
    ensures IsLegacy(table, prop) ==> prop in r && r[prop] == options[prop]
    ensures IsLegacy(table, prop) ==> RenamedSoFar(options, table, done + {prop}, r[table[prop] := r[prop]] - {prop})
    ensures !IsLegacy(table, prop) ==> RenamedSoFar(options, table, done + {prop}, r)
  {
    var done' := done + {prop};
    if IsLegacy(table, prop) {
      var t := table[prop];
      assert LegacyKeys(table, done') == LegacyKeys(table, done) + {prop};
      assert RenameTargets(table, done') == RenameTargets(table, done) + {t};
      assert prop !in RenameTargets(table, done);
      assert prop != t;
      var r' := r[t := r[prop]] - {prop};
      assert r'.Keys == (options.Keys - LegacyKeys(table, done')) + RenameTargets(table, done');
      assert options[prop] in RenameSources(options, table, done', t);
      forall t' | t' in RenameTargets(table, done')
        ensures r'[t'] in RenameSources(options, table, done', t')
      {
        if t' != t {
          assert RenameSources(options, table, done, t') <= RenameSources(options, table, done', t');
        }
      }
    } else {
      assert LegacyKeys(table, done') == LegacyKeys(table, done);
      assert RenameTargets(table, done') == RenameTargets(table, done);
      forall t | t in RenameTargets(table, done)
        ensures RenameSources(options, table, done', t) == RenameSources(options, table, done, t)
      {
      }
    }
  }

  /**
   * applyOptionsDefault's merge, `Object.assign({}, defaults, options)`: a new
   * object holding every default and every option, where an option overrides
   * the default of the same name.
   */
  function WithDefaults(defaults: Options, options: Options): (r: Options)
    ensures r.Keys == defaults.Keys + options.Keys
    ensures forall k | k in options :: r[k] == options[k]
    ensures forall k | k in defaults && k !in options :: r[k] == defaults[k]
  {
    defaults + options
  }
}
