/**
 * The account response of the finance endpoint is a flat key space such as
 * `btc_balance`, `btc_lock`, `btc_rate`. `finance()` folds it into one record
 * of fields per asset name, in the order the names first appear.
 */
module Holdings {
  import opened Wrappers

  datatype Flag = Balance | Lock | Rate

  /** The suffixes, in the order `finance()` tries them. */
  const SuffixFlags: seq<Flag> := [Balance, Lock, Rate]

  function FlagText(f: Flag): string
  {
    match f
    case Balance => "balance"
    case Lock => "lock"
    case Rate => "rate"
  }

  predicate EndsWith(key: string, suffix: string)
  {
    |suffix| <= |key| && key[|key| - |suffix|..] == suffix
  }

  /** The first flag of `flags` whose text ends `key`. */
  function FirstMatch(key: string, flags: seq<Flag>): (r: Option<Flag>)
    ensures r.Some? ==> r.value in flags && EndsWith(key, FlagText(r.value))
    ensures r.None? ==> forall f :: f in flags ==> !EndsWith(key, FlagText(f))
  {
    if flags == [] then None
    else if EndsWith(key, FlagText(flags[0])) then Some(flags[0])
    else FirstMatch(key, flags[1..])
  }

  /**
   * The asset name inside a key that ends with flag `f`: the key without the
   * flag and without the one separator character before it. A key no longer
   * than the flag gives the empty name (`substring` clamps a negative end to 0).
   */
  function NameOf(key: string, f: Flag): (name: string)
    ensures |key| > |FlagText(f)| ==> |name| == |key| - |FlagText(f)| - 1
    ensures |key| <= |FlagText(f)| ==> name == ""
    ensures name <= key
  {
    var end := |key| - |FlagText(f)| - 1;
    key[..if end < 0 then 0 else end]
  }

  /**
   * The name and field a key is recorded under: a flag the key ends with and
   * the name in front of it, or None when the key ends with no flag.
   */
  function KeyParse(key: string): (r: Option<(string, Flag)>)
    ensures r.Some? ==> EndsWith(key, FlagText(r.value.1)) && r.value.0 == NameOf(key, r.value.1)
    ensures r.None? ==> forall f :: !EndsWith(key, FlagText(f))
  {
    assert Balance in SuffixFlags && Lock in SuffixFlags && Rate in SuffixFlags;
    match FirstMatch(key, SuffixFlags)
    case None => None
    case Some(f) => Some((NameOf(key, f), f))
  }

  lemma LastLetters(key: string, suffix: string, d: nat)
    requires EndsWith(key, suffix) && 0 < d <= |suffix|
    ensures key[|key| - d] == suffix[|suffix| - d]
  {
    assert key[|key| - |suffix|..][|suffix| - d] == key[|key| - d];
  }

  /** No key ends with two different flags, so trying them in order loses no match. */
  lemma SuffixesExclusive(key: string, f: Flag, g: Flag)
    requires f != g
    ensures !(EndsWith(key, FlagText(f)) && EndsWith(key, FlagText(g)))
  {
    // "lock" differs from the others in its last letter, "balance" and
    // "rate" in the letter before it
    var d := if f == Lock || g == Lock then 1 else 2;
    if EndsWith(key, FlagText(f)) && EndsWith(key, FlagText(g)) {
      LastLetters(key, FlagText(f), d);
      LastLetters(key, FlagText(g), d);
    }
  }

  /** A key is recorded under flag `f` exactly when it ends with `f`'s text. */
  lemma KeyParseFlag(key: string, f: Flag)
    ensures (KeyParse(key).Some? && KeyParse(key).value.1 == f) <==> EndsWith(key, FlagText(f))
  {
    var m := FirstMatch(key, SuffixFlags);
    if m.Some? && m.value != f {
      SuffixesExclusive(key, m.value, f);
    }
    if EndsWith(key, FlagText(f)) {
      assert f in SuffixFlags;
    }
  }

  /** The name, one separator character and the flag make up the key again. */
  lemma KeyParseRoundTrip(key: string)
    requires KeyParse(key).Some?
    ensures var (name, f) := KeyParse(key).value;
      EndsWith(key, FlagText(f)) &&
      (|key| > |FlagText(f)| ==> key == name + [key[|name|]] + FlagText(f)) &&
      (|key| == |FlagText(f)| ==> name == "")
  {
    var (name, f) := KeyParse(key).value;
    if |key| > |FlagText(f)| {
      assert key == key[..|name|] + [key[|name|]] + key[|name| + 1..];
    }
  }

  /**
   * `my_coins`: the names in the order in which they are first recorded and,
   * per name, the fields recorded so far. `Object.keys(my_coins)` gives the
   * same order except that names which are array indices ("9", "10") come
   * first, in ascending numeric order; the model does not reorder those.
   */
  datatype Holdings = Holdings(order: seq<string>, fields: map<string, map<Flag, real>>)

  const NoHoldings := Holdings([], map[])

  ghost predicate WellFormed(h: Holdings)
  {
    && Distinct(h.order)
    && (forall n :: n in h.fields <==> n in h.order)
  }

  function Field(h: Holdings, name: string, f: Flag): Option<real>
  {
    if name in h.fields && f in h.fields[name] then Some(h.fields[name][f]) else None
  }

  /** `if (!my_coins[name]) my_coins[name] = {}`: a new name gets an empty row, appended to the order. */
  function Touch(h: Holdings, name: string): (r: Holdings)
    ensures r.fields.Keys == h.fields.Keys + {name}
    ensures name in h.fields ==> r == h
    ensures name !in h.fields ==> r.order == h.order + [name] && r.fields[name] == map[]
    ensures forall n :: n in h.fields ==> r.fields[n] == h.fields[n]
  {
    if name in h.fields then h else Holdings(h.order + [name], h.fields[name := map[]])
  }

  /** One iteration of the outer loop of the balance-key parsing. */
  function AddKey(h: Holdings, key: string, value: real): (r: Holdings)
    ensures |h.order| <= |r.order| <= |h.order| + 1 && r.order[..|h.order|] == h.order
  {
    match KeyParse(key)
    case None => h
    case Some((name, f)) =>
      var t := Touch(h, name);
      t.(fields := t.fields[name := t.fields[name][f := value]])
  }

  /** One key sets the one field it is recorded under and no other. */
  lemma AddKeyField(h: Holdings, key: string, value: real, n: string, f: Flag)
    ensures Field(AddKey(h, key, value), n, f) ==
      if KeyParse(key) == Some((n, f)) then Some(value) else Field(h, n, f)
  {
  }

  /** One key appends its name when the name is new, and keeps the names distinct. */
  lemma AddKeyOrder(h: Holdings, key: string, value: real)
    requires WellFormed(h)
    ensures WellFormed(AddKey(h, key, value))
    ensures forall n :: n in AddKey(h, key, value).order <==>
      n in h.order || (KeyParse(key).Some? && KeyParse(key).value.0 == n)
  {
  }

  /**
   * The parsing of `entries` continued from `h`: the names already recorded
   * keep their places at the front, and each key adds at most one name.
   */
  function ParseFrom(h: Holdings, entries: seq<(string, real)>): (r: Holdings)
    ensures |h.order| <= |r.order| <= |h.order| + |entries| && r.order[..|h.order|] == h.order
    decreases |entries|
  {
    if entries == [] then h else ParseFrom(AddKey(h, entries[0].0, entries[0].1), entries[1..])
  }

  /** `my_coins` built from the whole key space: at most one name per key. */
  function Parse(entries: seq<(string, real)>): (r: Holdings)
    ensures |r.order| <= |entries|
  {
    ParseFrom(NoHoldings, entries)
  }

  /**
   * Reference definition of a field's final value: the value of the LAST key
   * recorded under that name and flag.
   */
  function LastValue(entries: seq<(string, real)>, name: string, f: Flag): Option<real>
    decreases |entries|
  {
    if entries == [] then None
    else
      var later := LastValue(entries[1..], name, f);
      if later.Some? then later
      else if KeyParse(entries[0].0) == Some((name, f)) then Some(entries[0].1)
      else None
  }

  lemma {:induction false} ParseFromFields(h: Holdings, entries: seq<(string, real)>, name: string, f: Flag)
    ensures Field(ParseFrom(h, entries), name, f) ==
      if LastValue(entries, name, f).Some? then LastValue(entries, name, f) else Field(h, name, f)
    decreases |entries|
  {
    if entries != [] {
      AddKeyField(h, entries[0].0, entries[0].1, name, f);
      ParseFromFields(AddKey(h, entries[0].0, entries[0].1), entries[1..], name, f);
    }
  }

  /**
   * The names of the keys in `entries` that end with a flag; by
   * `KeyNamesMembers`, the names `KeyParse` finds in some key.
   */
  function KeyNames(entries: seq<(string, real)>): set<string>
    decreases |entries|
  {
    if entries == [] then {}
    else (if KeyParse(entries[0].0).Some? then {KeyParse(entries[0].0).value.0} else {}) + KeyNames(entries[1..])
  }

  lemma {:induction false} KeyNamesMembers(entries: seq<(string, real)>, n: string)
    ensures n in KeyNames(entries) <==>
      exists i :: 0 <= i < |entries| && KeyParse(entries[i].0).Some? && KeyParse(entries[i].0).value.0 == n
    decreases |entries|
  {
    if entries != [] {
      KeyNamesMembers(entries[1..], n);
      if exists i :: 0 <= i < |entries[1..]| && KeyParse(entries[1..][i].0).Some? && KeyParse(entries[1..][i].0).value.0 == n {
        var i :| 0 <= i < |entries[1..]| && KeyParse(entries[1..][i].0).Some? && KeyParse(entries[1..][i].0).value.0 == n;
        assert entries[1..][i] == entries[i + 1];
      }
      if exists i :: 0 <= i < |entries| && KeyParse(entries[i].0).Some? && KeyParse(entries[i].0).value.0 == n {
        var i :| 0 <= i < |entries| && KeyParse(entries[i].0).Some? && KeyParse(entries[i].0).value.0 == n;
        if i > 0 {
          assert entries[1..][i - 1] == entries[i];
        }
      }
    }
  }

  lemma {:induction false} ParseFromOrder(h: Holdings, entries: seq<(string, real)>)
    requires WellFormed(h)
    ensures WellFormed(ParseFrom(h, entries))
    ensures forall n :: n in ParseFrom(h, entries).order <==> n in h.order || n in KeyNames(entries)
    decreases |entries|
  {
    if entries != [] {
      AddKeyOrder(h, entries[0].0, entries[0].1);
      ParseFromOrder(AddKey(h, entries[0].0, entries[0].1), entries[1..]);
    }
  }

  lemma ParseWellFormed(entries: seq<(string, real)>)
    ensures WellFormed(Parse(entries))
  {
    ParseFromOrder(NoHoldings, entries);
  }

  /** A later key with the same name and flag overwrites an earlier one. */
  lemma ParseField(entries: seq<(string, real)>, name: string, f: Flag)
    ensures Field(Parse(entries), name, f) == LastValue(entries, name, f)
  {
    ParseFromFields(NoHoldings, entries, name, f);
  }

  /**
   * What the balance-key parsing produces: every field holds the value of the
   * last key recorded under its name and flag; the names are distinct and are
   * exactly those of the keys that end with a flag; the field map has a row
   * for each listed name and no other.
   */
  lemma ParseSpec(entries: seq<(string, real)>)
    ensures WellFormed(Parse(entries))
    ensures forall name, f :: Field(Parse(entries), name, f) == LastValue(entries, name, f)
    ensures forall n :: n in Parse(entries).order <==> n in KeyNames(entries)
  {
    ParseFromOrder(NoHoldings, entries);
    forall name, f ensures Field(Parse(entries), name, f) == LastValue(entries, name, f) {
      ParseFromFields(NoHoldings, entries, name, f);
    }
  }

  /** Key `key` is recorded under name `n`. */
  predicate Names(key: string, n: string)
  {
    KeyParse(key).Some? && KeyParse(key).value.0 == n
  }

  /** The index of the first key recorded under name `n`; `|entries|` if there is none. */
  function FirstIndex(entries: seq<(string, real)>, n: string): (i: nat)
    ensures i <= |entries|
    ensures i < |entries| ==> Names(entries[i].0, n)
    ensures forall k :: 0 <= k < i ==> !Names(entries[k].0, n)
    decreases |entries|
  {
    if entries == [] then 0
    else if Names(entries[0].0, n) then 0
    else
      var later := FirstIndex(entries[1..], n);
      assert forall k :: 0 < k <= later ==> entries[k] == entries[1..][k - 1];
      1 + later
  }

  /** A key either leaves the names as they are, naming one of them if any, or appends the one it names. */
  lemma AddKeyAppend(h: Holdings, key: string, value: real)
    requires WellFormed(h)
    ensures var r := AddKey(h, key, value);
      && (|r.order| == |h.order| ==> forall n :: Names(key, n) ==> n in h.order)
      && (|r.order| == |h.order| + 1 ==> Names(key, r.order[|h.order|]))
  {
  }

  /** In a sequence of distinct elements that starts with `p`, what comes after `p` is not in `p`. */
  lemma AfterPrefix(s: seq<string>, p: seq<string>, k: nat)
    requires Distinct(s) && |p| <= k < |s| && s[..|p|] == p
    ensures s[k] !in p
  {
  }

  lemma {:induction false} ParseFromFirst(h: Holdings, entries: seq<(string, real)>, i: nat, j: nat)
    requires WellFormed(h)
    requires |h.order| <= i < j < |ParseFrom(h, entries).order|
    ensures var r := ParseFrom(h, entries);
      FirstIndex(entries, r.order[i]) < FirstIndex(entries, r.order[j])
    decreases |entries|
  {
    if entries == [] {
      assert false;
    } else {
      var (key, value) := entries[0];
      var h', rest := AddKey(h, key, value), entries[1..];
      var r := ParseFrom(h', rest);
      assert r == ParseFrom(h, entries);
      AddKeyOrder(h, key, value);
      AddKeyAppend(h, key, value);
      ParseFromOrder(h', rest);
      var x, y := r.order[i], r.order[j];
      if |h'.order| == |h.order| + 1 {
        var n := h'.order[|h.order|];
        assert r.order[..|h'.order|] == h'.order;
        AfterPrefix(r.order, h'.order, j);
        assert y != n && !Names(key, y);
        if i == |h.order| {
          assert x == n && Names(key, x);
        } else {
          AfterPrefix(r.order, h'.order, i);
          assert x != n && !Names(key, x);
          ParseFromFirst(h', rest, i, j);
        }
      } else {
        AfterPrefix(r.order, h.order, i);
        AfterPrefix(r.order, h.order, j);
        assert !Names(key, x) && !Names(key, y);
        ParseFromFirst(h', rest, i, j);
      }
    }
  }

  /**
   * The names of `my_coins` come in the order in which they first appear
   * among the keys: every name is recorded by some key, and of two names the
   * earlier one's first key comes first.
   */
  lemma ParseOrderFirst(entries: seq<(string, real)>, i: nat, j: nat)
    requires i < j < |Parse(entries).order|
    ensures FirstIndex(entries, Parse(entries).order[i]) < FirstIndex(entries, Parse(entries).order[j]) < |entries|
  {
    ParseFromFirst(NoHoldings, entries, i, j);
    ParseFromOrder(NoHoldings, entries);
    var n := Parse(entries).order[j];
    KeyNamesMembers(entries, n);
    var k :| 0 <= k < |entries| && KeyParse(entries[k].0).Some? && KeyParse(entries[k].0).value.0 == n;
    assert Names(entries[k].0, n);
  }

  /**
   * The loop of `finance()` over the finance keys; each key goes to
   * `RecordKey`.
   */
  method ParseHoldings(entries: seq<(string, real)>) returns (h: Holdings)
    ensures h == Parse(entries)
  {
    h := NoHoldings;
    var i := 0;
    while i < |entries|
      invariant 0 <= i <= |entries|
      invariant ParseFrom(h, entries[i..]) == Parse(entries)
    {
      var (key, value) := entries[i];
      assert entries[i..][1..] == entries[i + 1..];
      h := RecordKey(h, key, value);
      i := i + 1;
    }
  }

  /**
   * The inner loop over the suffixes, left at the first one the key ends
   * with: the value goes under the key's name and that suffix.
   */
  method RecordKey(h0: Holdings, key: string, value: real) returns (h: Holdings)
    ensures h == AddKey(h0, key, value)
  {
    h := h0;
    var j := 0;
    while j < |SuffixFlags|
      invariant 0 <= j <= |SuffixFlags|
      invariant h == h0
      invariant FirstMatch(key, SuffixFlags) == FirstMatch(key, SuffixFlags[j..])
    {
      var flag := SuffixFlags[j];
      assert SuffixFlags[j..][0] == flag && SuffixFlags[j..][1..] == SuffixFlags[j + 1..];
      if EndsWith(key, FlagText(flag)) {
        var name := NameOf(key, flag);
        assert KeyParse(key) == Some((name, flag));
        if name !in h.fields {
          h := h.(order := h.order + [name], fields := h.fields[name := map[]]);
        }
        h := h.(fields := h.fields[name := h.fields[name][flag := value]]);
        return;
      }
      j := j + 1;
    }
    assert SuffixFlags[j..] == [];
  }
}
