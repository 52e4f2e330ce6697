/**
 * The browser settings wrapper of the chat front end
 * (src/lib/LocalStorage.js): a fixed table of supported keys, a load from
 * the browser's localStorage on construction, and a setter that writes
 * through to it. The browser store is the `store` map; JSON text is
 * modelled as `Json(v)` for the text JSON.stringify produces from `v`, and
 * `Other(s)` for any other text, which JSON.parse rejects.
 */
module LocalStorage {
  import opened Common

  /** The constructor a key is declared with in the key table. */
  datatype Kind = StringKind | NumberKind | BooleanKind | ObjectKind

  /** A setting's value in the page. */
  datatype Value =
    | Str(s: string)
    | Num(n: int)
    | NaN
    | Null
    | Bool(b: bool)
    | Obj(fields: map<string, string>)
    | Text(t: Stored)

  /** A string held by the browser's localStorage. */
  datatype Stored = Json(v: Value) | Other(s: string)

  /** The key table, in declaration order. */
  const KeyTable: seq<(string, Kind)> := [
    ("fontSizeClass", StringKind), ("videoScale", StringKind), ("imageDisplaySetting", StringKind),
    ("scrollback", NumberKind), ("preferredDeviceNames", ObjectKind),
    ("videoMutual", BooleanKind), ("videoMutualOpen", BooleanKind), ("videoAutoMute", BooleanKind),
    ("videoVipOnly", BooleanKind),
    ("joinMessages", BooleanKind), ("exitMessages", BooleanKind), ("watchNotif", BooleanKind),
    ("muteSounds", BooleanKind), ("closeDMs", BooleanKind),
    ("skip-nsfw-modal", BooleanKind)]

  predicate Supported(key: string) {
    exists i :: 0 <= i < |KeyTable| && KeyTable[i].0 == key
  }

  /** The names a plain JavaScript object inherits from Object.prototype: looking one up is never undefined. */
  const InheritedNames: set<string> := {
    "constructor", "hasOwnProperty", "isPrototypeOf", "propertyIsEnumerable", "toLocaleString",
    "toString", "valueOf", "__defineGetter__", "__defineSetter__", "__lookupGetter__",
    "__lookupSetter__", "__proto__"}

  /** `keys[key] == undefined` is false: a listed key, or a name every object inherits. */
  predicate Defined(key: string) {
    Supported(key) || key in InheritedNames
  }

  /** What survives a trip through JSON: NaN has no JSON form and turns into null. */
  function Revived(v: Value): Value {
    if v == NaN then Null else v
  }

  /** JSON.stringify: NaN is written as `null`; every other value as itself. */
  function Stringify(v: Value): Stored {
    if v == NaN then Json(Null) else Json(v)
  }

  /** JSON.parse: the value back from JSON text; other text throws. */
  function Parse(t: Stored): (r: Option<Value>)
    ensures r.Some? <==> t.Json?
  {
    if t.Json? then Some(t.v) else None
  }

  /** parseInt: a stringified number gives the number; other text gives NaN. */
  function ParseInt(t: Stored): Value {
    if t.Json? && t.v.Num? then t.v else NaN
  }

  /** JSON.parse inverts JSON.stringify on every value but NaN, which comes back as null. */
  lemma ParseStringify(v: Value)
    ensures v != NaN ==> Parse(Stringify(v)) == Some(v)
    ensures v == NaN ==> Parse(Stringify(v)) == Some(Null)
    ensures Parse(Stringify(v)).Some? && Parse(Stringify(v)).value != NaN
  {
  }

  /** The settings a load of `store` produces for the keys of `table`, or None when JSON.parse throws. */
  function Loaded(store: map<string, Stored>, table: seq<(string, Kind)>): Option<map<string, Value>> {
    if |table| == 0 then Some(map[])
    else
      var before := Loaded(store, table[..|table| - 1]);
      var key := table[|table| - 1].0;
      if before.None? || key !in store then before
      else if Parse(store[key]).None? then None
      else Some(before.value[key := Parse(store[key]).value])
  }

  /**
   * A load succeeds exactly when every stored setting of the table is JSON
   * text, and then holds exactly those settings, each parsed.
   */
  lemma {:induction false} LoadedSettings(store: map<string, Stored>, table: seq<(string, Kind)>)
    ensures Loaded(store, table).Some? <==> forall i :: 0 <= i < |table| && table[i].0 in store ==> store[table[i].0].Json?
    ensures Loaded(store, table).Some? ==>
              forall key :: key in Loaded(store, table).value <==>
                key in store && exists i :: 0 <= i < |table| && table[i].0 == key
    ensures Loaded(store, table).Some? ==>
              forall key :: key in Loaded(store, table).value ==> Loaded(store, table).value[key] == store[key].v
  {
    if |table| > 0 {
      var prefix := table[..|table| - 1];
      LoadedSettings(store, prefix);
      assert forall i :: 0 <= i < |prefix| ==> prefix[i] == table[i];
    }
  }

  /** The UserSettings object. */
  class UserSettings {
    /** The browser's localStorage. */
    var store: map<string, Stored>
    /** The settings held on the object (`this[key]`); an absent key is undefined. */
    var values: map<string, Value>
    /** The constructor threw (JSON.parse rejected a stored setting). */
    var thrown: bool

    /** Every supported setting on the object is the parse of what the store holds for it. */
    ghost predicate Valid()
      reads this
    {
      && !thrown
      && (forall key :: key in values ==> key in store && Parse(store[key]) == Some(Revived(values[key])))
      && (forall key :: key in store && Supported(key) ==> key in values)
    }

    /**
     * The constructor: each supported key found in the store is assigned
     * through the switch, whose cases fall through, so the last assignment,
     * JSON.parse, decides the value whatever the key's kind.
     */
    constructor(store: map<string, Stored>)
      ensures this.store == store
      ensures thrown <==> Loaded(store, KeyTable).None?
      ensures !thrown ==> values == Loaded(store, KeyTable).value
    {
      this.store := store;
      values := map[];
      thrown := false;
      new;
      for i := 0 to |KeyTable|
        invariant this.store == store
        invariant !thrown ==> Loaded(store, KeyTable[..i]) == Some(values)
        invariant thrown ==> Loaded(store, KeyTable[..i]).None?
      {
        assert KeyTable[..i + 1][..i] == KeyTable[..i];
        if thrown {
          continue;
        }
        var (key, kind) := KeyTable[i];
        if key in store {
          var parsed := Assign(kind, store[key]);
          if parsed.None? {
            thrown := true;
          } else {
            values := values[key := parsed.value];
          }
        }
      }
      assert KeyTable[..|KeyTable|] == KeyTable;
    }

    /**
     * One key's switch, cases falling through from the key's kind: every
     * assignment but the last is overwritten, and the last is JSON.parse
     * (None when it throws).
     */
    static method Assign(kind: Kind, text: Stored) returns (value: Option<Value>)
      ensures value == Parse(text)
    {
      var v := NaN;
      if kind == StringKind {
        v := Text(text);
      }
      if kind == StringKind || kind == NumberKind {
        v := ParseInt(text);
      }
      if kind != ObjectKind {
        v := Bool(text == Json(Str("true")));
      }
      var parsed := Parse(text);
      if parsed.None? {
        return None;
      }
      v := parsed.value;
      return Some(v);
    }

    /** A load that did not throw leaves the object in step with the store. */
    static lemma LoadIsValid(store: map<string, Stored>)
      requires Loaded(store, KeyTable).Some?
      ensures forall key :: key in Loaded(store, KeyTable).value ==> key in store && Parse(store[key]) == Some(Loaded(store, KeyTable).value[key])
      ensures forall key :: key in store && Supported(key) ==> key in Loaded(store, KeyTable).value
    {
      LoadedSettings(store, KeyTable);
    }

    /** get: the value on the object, if any. */
    function Get(key: string): (r: Option<Value>)
      reads this
      ensures r.Some? <==> key in values
      ensures r.Some? ==> r.value == values[key]
    {
      if key in values then Some(values[key]) else None
    }

    /** getSettings: the supported settings on the object that are neither undefined nor null (`!= undefined`). */
    method GetSettings() returns (r: map<string, Value>)
      ensures forall key :: key in r <==> Supported(key) && key in values && values[key] != Null
      ensures forall key :: key in r ==> r[key] == values[key]
    {
      r := map[];
      for i := 0 to |KeyTable|
        invariant forall key :: key in r <==> key in values && values[key] != Null
                                              && exists j :: 0 <= j < i && KeyTable[j].0 == key
        invariant forall key :: key in r ==> r[key] == values[key]
      {
        var key := KeyTable[i].0;
        if key in values && values[key] != Null {
          r := r[key := values[key]];
        }
      }
    }

    /**
     * set: a key the table does not define throws and changes nothing;
     * otherwise the stringified value goes to the store and the value to the
     * object. The key test looks the key up on a plain object, so the names it
     * inherits pass as well.
     */
    method Set(key: string, value: Value) returns (threw: bool)
      modifies this
      ensures threw <==> !Defined(key)
      ensures threw ==> store == old(store) && values == old(values)
      ensures !threw ==> store == old(store)[key := Stringify(value)] && values == old(values)[key := value]
      ensures thrown == old(thrown)
      ensures old(Valid()) ==> Valid()
    {
      var found := false;
      for i := 0 to |KeyTable|
        invariant found <==> exists j :: 0 <= j < i && KeyTable[j].0 == key
      {
        if KeyTable[i].0 == key {
          found := true;
        }
      }
      found := found || key in InheritedNames;
      if !found {
        return true;
      }
      store := store[key := Stringify(value)];
      values := values[key := value];
      return false;
    }
  }

  /** What a set stores comes back on the next load: the value survives a reload, NaN as null. */
  lemma ReloadRoundTrip(store: map<string, Stored>, key: string, value: Value)
    requires Supported(key) && Loaded(store, KeyTable).Some?
    ensures Loaded(store[key := Stringify(value)], KeyTable).Some?
    ensures key in Loaded(store[key := Stringify(value)], KeyTable).value
    ensures Loaded(store[key := Stringify(value)], KeyTable).value[key] == if value == NaN then Null else value
  {
    var after := store[key := Stringify(value)];
    LoadedSettings(store, KeyTable);
    LoadedSettings(after, KeyTable);
  }

  /** Settings other code writes that the key table does not list, so set throws for them. */
  lemma UnlistedKeys()
    ensures !Defined("videoExplicit") && !Defined("videoNonExplicit") && !Defined("rememberExpresslyClosed")
    ensures !Defined("autoMuteWebcams") && !Defined("videoAutoShare")
  {
  }
}
