/** The option table as a value: one entry per key, and the pure rules that
    the plugin's constructor, `set`, `simpleOptions` and `load` follow. */
module OptionTable {
  import opened Values

  /** One option. Every field except `value` may be absent, as in the plugin's
      option objects; `kind` is the option's `type` ("text", "range", ...) and
      `labelText` its `label`. */
  datatype Entry = Entry(
    value: Value,
    kind: Option<string>,
    labelText: Option<string>,
    help: Option<string>,
    min: Option<int>,
    max: Option<int>,
    step: Option<int>,
    percent: Option<bool>,
    choices: Option<seq<string>>)

  /** Options by key. */
  type Table = map<string, Entry>

  /** The entry `set` creates for a key it did not know: a value and nothing else. */
  function Bare(v: Value): (e: Entry)
    ensures e.value == v && e.kind.None? && e.labelText.None? && e.help.None?
    ensures e.min.None? && e.max.None? && e.step.None? && e.percent.None? && e.choices.None?
  {
    Entry(v, None, None, None, None, None, None, None, None)
  }

  predicate IsRange(e: Entry) {
    e.kind == Some("range")
  }

  /** Fills in the range fields the constructor defaults: `min` 0, `max` 100,
      `step` 1 (also when given as 0) and `percent` true. Non-range entries and
      every other field are left alone. */
  function NormaliseEntry(e: Entry): (r: Entry)
    ensures !IsRange(e) ==> r == e
    ensures r.value == e.value && r.kind == e.kind && r.labelText == e.labelText
    ensures r.help == e.help && r.choices == e.choices
    ensures IsRange(e) ==> r.min.Some? && r.max.Some? && r.step.Some? && r.percent.Some?
    ensures IsRange(e) ==> r.step.value != 0
    ensures IsRange(e) ==> r.min == (if e.min.Some? then e.min else Some(0))
    ensures IsRange(e) ==> r.max == (if e.max.Some? then e.max else Some(100))
    ensures IsRange(e) ==> r.step == (if e.step.Some? && e.step.value != 0 then e.step else Some(1))
    ensures IsRange(e) ==> r.percent == (if e.percent.Some? then e.percent else Some(true))
  {
    if IsRange(e) then
      e.(min := Some(e.min.GetOr(0)),
         max := Some(e.max.GetOr(100)),
         step := if e.step.None? || e.step.value == 0 then Some(1) else e.step,
         percent := Some(e.percent.GetOr(true)))
    else
      e
  }

  /** Normalising twice is normalising once. */
  lemma NormaliseIdempotent(e: Entry)
    ensures NormaliseEntry(NormaliseEntry(e)) == NormaliseEntry(e)
  {
  }

  /** The constructor's loop over the defaults, normalising each entry in turn. */
  method NormaliseDefaults(d: Table) returns (r: Table)
    ensures r.Keys == d.Keys
    ensures forall k :: k in d ==> r[k] == NormaliseEntry(d[k])
  {
    r := d;
    var todo := d.Keys;
    while todo != {}
      invariant todo <= d.Keys
      invariant r.Keys == d.Keys
      invariant forall k :: k in d ==> r[k] == if k in todo then d[k] else NormaliseEntry(d[k])
      decreases todo
    {
      var k :| k in todo;
      if IsRange(r[k]) {
        r := r[k := NormaliseEntry(r[k])];
      }
      todo := todo - {k};
    }
  }

  /** What `get` answers: the key's value, or nothing for an unknown key. */
  function Lookup(t: Table, key: string): (r: Option<Value>)
    ensures r.Some? <==> key in t
    ensures r.Some? ==> r.value == t[key].value
  {
    if key in t then Some(t[key].value) else None
  }

  /** The table after `set(key, v)`: a known key keeps its schema and takes the
      new value, an unknown key gets a bare entry, and nothing else changes. */
  function Assign(t: Table, key: string, v: Value): (r: Table)
    ensures r.Keys == t.Keys + {key}
    ensures Lookup(r, key) == Some(v)
    ensures key in t ==> r[key] == t[key].(value := v)
    ensures key !in t ==> r[key] == Bare(v)
    ensures forall k :: k in t && k != key ==> r[k] == t[k]
  {
    var e := if key in t then t[key] else Bare(v);
    t[key := e.(value := v)]
  }

  /** `simpleOptions`: exactly the table's keys, each mapped to its entry's value. */
  function SimpleValues(t: Table): (r: map<string, Value>)
    ensures r.Keys == t.Keys
    ensures forall k :: k in t ==> r[k] == t[k].value
  {
    map k | k in t :: t[k].value
  }

  /** Writing a value changes the persisted view at that key only. */
  lemma SimpleValuesAfterAssign(t: Table, key: string, v: Value)
    ensures SimpleValues(Assign(t, key, v)) == SimpleValues(t)[key := v]
  {
  }

  /** What `load` makes of the defaults and a stored blob: each default whose
      key is stored with a truthy value takes that value; stored keys the
      defaults do not know, and falsy stored values, are dropped. */
  function Overlay(d: Table, stored: map<string, Value>): (r: Table)
    ensures r.Keys == d.Keys
    ensures forall k :: k in d ==> r[k] == d[k].(value := r[k].value)
    ensures forall k :: k in d && k in stored && IsTruthy(stored[k]) ==> r[k].value == stored[k]
    ensures forall k :: k in d && (k !in stored || !IsTruthy(stored[k])) ==> r[k] == d[k]
  {
    map k | k in d :: if k in stored && IsTruthy(stored[k]) then d[k].(value := stored[k]) else d[k]
  }

  /** The table `load` produces from the defaults and the blob found under the
      storage key, if any; a missing blob leaves the defaults. */
  function Loaded(d: Table, blob: Option<map<string, Value>>): (r: Table)
    ensures blob.None? ==> r == d
    ensures r.Keys == d.Keys
  {
    match blob
    case None => d
    case Some(stored) => Overlay(d, stored)
  }

  /** `t` differs from the defaults `d` in values only: the shape that `load`,
      `reset`, and `set` on known keys keep. */
  ghost predicate SameSchema(d: Table, t: Table) {
    t.Keys == d.Keys && forall k :: k in t ==> t[k] == d[k].(value := t[k].value)
  }

  /** `set` on a known key keeps the table's schema. */
  lemma AssignKeepsSchema(d: Table, t: Table, key: string, v: Value)
    requires SameSchema(d, t) && key in d
    ensures SameSchema(d, Assign(t, key, v))
  {
  }

  /** Saving then loading: each value comes back if it is truthy, and a falsy
      value comes back as its default. */
  lemma SaveLoadRoundTrip(d: Table, t: Table)
    requires SameSchema(d, t)
    ensures Overlay(d, SimpleValues(t)).Keys == t.Keys
    ensures forall k :: k in t ==>
      Overlay(d, SimpleValues(t))[k] == if IsTruthy(t[k].value) then t[k] else d[k]
  {
  }

  /** With every value truthy the save/load round trip is exact. */
  lemma SaveLoadExact(d: Table, t: Table)
    requires SameSchema(d, t)
    requires forall k :: k in t ==> IsTruthy(t[k].value)
    ensures Overlay(d, SimpleValues(t)) == t
  {
    SaveLoadRoundTrip(d, t);
  }

  /** Loading what a load produced and saved gives the same table again. */
  lemma LoadIsStable(d: Table, stored: map<string, Value>)
    ensures Overlay(d, SimpleValues(Overlay(d, stored))) == Overlay(d, stored)
  {
    var once := Overlay(d, stored);
    var twice := Overlay(d, SimpleValues(once));
    forall k | k in d
      ensures twice[k] == once[k]
    {
      if k in stored && IsTruthy(stored[k]) {
        assert twice[k] == d[k].(value := stored[k]);
      } else {
        assert once[k] == d[k];
        if IsTruthy(d[k].value) {
          assert twice[k] == d[k].(value := d[k].value);
        }
      }
    }
  }

  /** After `reset` has saved the defaults, `load` gives back the defaults. */
  lemma LoadAfterReset(d: Table)
    ensures Overlay(d, SimpleValues(d)) == d
  {
    assert SameSchema(d, d);
    SaveLoadRoundTrip(d, d);
  }

  /** A key written by `set` that the defaults do not know is saved, but the
      next `load` drops it. */
  lemma UnknownKeySavedButNotLoaded(d: Table, t: Table, key: string, v: Value)
    requires key !in d
    ensures key in SimpleValues(Assign(t, key, v))
    ensures key !in Overlay(d, SimpleValues(Assign(t, key, v)))
  {
  }

  /** A toggle saved as `false` comes back as its default. */
  lemma ToggleSavedFalseLoadsDefault()
    ensures var d := map["toggle" := Entry(Bool(true), Some("toggle"), None, None, None, None, None, None, None)];
      Overlay(d, map["toggle" := Bool(false)]) == d
  {
  }

  /** Defaults text "Text" and number 50 with the blob {"text": "", "number": 7}
      load as text "Text" and number 7. */
  lemma LoadDiscardsEmptyString()
    ensures var d := map["text" := Bare(Str("Text")).(kind := Some("text")),
                         "number" := Bare(Num(50)).(kind := Some("number"))];
      var r := Overlay(d, map["text" := Str(""), "number" := Num(7)]);
      Lookup(r, "text") == Some(Str("Text")) && Lookup(r, "number") == Some(Num(7))
  {
  }
}
