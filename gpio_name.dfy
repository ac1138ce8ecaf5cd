/** Finding the sysfs directory of a pin: `get_gpio_name` globs for
    `<GPIO_Path>/gpio<pin>_*` and keeps the last path component of the
    first hit. */
module GpioName {
  import opened Wrappers
  import opened Text

  /** The fixed part `gpio<pin>_` of the pattern `gpio<pin>_*`. */
  function Pattern(pin: string): string {
    "gpio" + pin + "_"
  }

  /** A directory entry matches `gpio<pin>_*` when it starts with
      `gpio<pin>_`; the `*` takes any rest, as entry names hold no `/`. */
  predicate Matches(name: string, pin: string) {
    Pattern(pin) <= name
  }

  /** `glob.glob("{dir}/gpio{pin}_*")` over the entries `names` of `dir`,
      in the order the directory lists them. */
  function Glob(dir: string, names: seq<string>, pin: string): (r: seq<string>)
    ensures |r| <= |names|
  {
    if |names| == 0 then []
    else (if Matches(names[0], pin) then [dir + "/" + names[0]] else []) + Glob(dir, names[1..], pin)
  }

  /** Every glob hit is a path inside the searched directory. */
  lemma {:induction false} GlobInDirectory(dir: string, names: seq<string>, pin: string)
    ensures forall k :: 0 <= k < |Glob(dir, names, pin)| ==> dir + "/" <= Glob(dir, names, pin)[k]
  {
    if |names| > 0 {
      GlobInDirectory(dir, names[1..], pin);
      var rest := Glob(dir, names[1..], pin);
      var head: seq<string> := if Matches(names[0], pin) then [dir + "/" + names[0]] else [];
      assert Glob(dir, names, pin) == head + rest;
      assert forall k :: 0 <= k < |head| ==> dir + "/" <= head[k];
    }
  }

  /** `get_gpio_name(gpio_path, pin)`: the base name of the first glob
      hit, or `None` for Python's `False`. */
  function GetGpioName(dir: string, names: seq<string>, pin: string): (r: Option<string>)
    ensures r.None? <==> FirstMatch(names, pin).None?
    ensures r.Some? ==> '/' !in r.value
  {
    GlobFirst(dir, names, pin);
    var found := Glob(dir, names, pin);
    if |found| > 0 then Some(LastComponent(found[0])) else None
  }

  /** The position of the first entry matching `gpio<pin>_*`. */
  function FirstMatch(names: seq<string>, pin: string): (r: Option<nat>)
    ensures r.Some? ==> r.value < |names| && Matches(names[r.value], pin)
    ensures r.Some? ==> forall j :: 0 <= j < r.value ==> !Matches(names[j], pin)
    ensures r.None? ==> forall j :: 0 <= j < |names| ==> !Matches(names[j], pin)
  {
    if |names| == 0 then None
    else if Matches(names[0], pin) then Some(0)
    else match FirstMatch(names[1..], pin)
      case None => None
      case Some(i) => Some(i + 1)
  }

  /** The glob finds something exactly when some entry matches, and its
      first hit is the first matching entry, prefixed by the directory. */
  lemma {:induction false} GlobFirst(dir: string, names: seq<string>, pin: string)
    ensures |Glob(dir, names, pin)| > 0 <==> FirstMatch(names, pin).Some?
    ensures FirstMatch(names, pin).Some? ==>
      Glob(dir, names, pin)[0] == dir + "/" + names[FirstMatch(names, pin).value]
  {
    if |names| > 0 {
      var rest := Glob(dir, names[1..], pin);
      if Matches(names[0], pin) {
        assert Glob(dir, names, pin) == [dir + "/" + names[0]] + rest;
      } else {
        GlobFirst(dir, names[1..], pin);
        assert Glob(dir, names, pin) == rest;
        var m := FirstMatch(names[1..], pin);
        if m.Some? {
          assert FirstMatch(names, pin) == Some(m.value + 1);
          assert names[m.value + 1] == names[1..][m.value];
        } else {
          assert FirstMatch(names, pin) == None;
        }
      }
    }
  }

  /** `get_gpio_name` returns the name of the first entry matching
      `gpio<pin>_*` in listing order, and `False` when none matches. */
  lemma GetGpioNameIsFirstMatch(dir: string, names: seq<string>, pin: string)
    requires forall k :: 0 <= k < |names| ==> '/' !in names[k]
    ensures FirstMatch(names, pin).None? ==> GetGpioName(dir, names, pin) == None
    ensures FirstMatch(names, pin).Some? ==>
      GetGpioName(dir, names, pin) == Some(names[FirstMatch(names, pin).value])
  {
    GlobFirst(dir, names, pin);
    if FirstMatch(names, pin).Some? {
      LastComponentOfChild(dir, names[FirstMatch(names, pin).value]);
    }
  }

  /** A resolved name is never the empty string, so the truth test
      `if gpio_name:` is true exactly when the glob found an entry. */
  lemma ResolvedNameNonEmpty(dir: string, names: seq<string>, pin: string)
    requires forall k :: 0 <= k < |names| ==> '/' !in names[k]
    ensures GetGpioName(dir, names, pin).Some? ==> GetGpioName(dir, names, pin).value != ""
  {
    GetGpioNameIsFirstMatch(dir, names, pin);
  }

  /** The character of a matching entry at position `4 + k`: the `k`-th
      digit of the pin, or the `_` that follows them. */
  lemma PatternAt(name: string, pin: string, k: nat)
    requires Matches(name, pin) && k <= |pin|
    ensures 4 + k < |name|
    ensures name[4 + k] == if k < |pin| then pin[k] else '_'
  {
    assert name[4 + k] == Pattern(pin)[4 + k];
  }

  /** Two different pin numbers without `_` never claim the same
      directory entry, so resolving one pin cannot land on another's. */
  lemma PatternsDisjoint(name: string, p: string, q: string)
    requires p != q && '_' !in p && '_' !in q
    requires Matches(name, p)
    ensures !Matches(name, q)
  {
    if Matches(name, q) {
      if |p| == |q| {
        forall k | 0 <= k < |p| ensures p[k] == q[k] {
          assert Pattern(p)[4 + k] == name[4 + k] == Pattern(q)[4 + k];
        }
      } else if |p| < |q| {
        PatternAt(name, p, |p|);
        PatternAt(name, q, |p|);
        assert false;
      } else {
        PatternAt(name, q, |q|);
        PatternAt(name, p, |q|);
        assert false;
      }
    }
  }
}
