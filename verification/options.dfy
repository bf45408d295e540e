/** The option-class generator (OptionsGenerator.cs): the settings are filed
    into a tree of categories named by dotted paths, and each setting becomes a
    Python class whose name, base class and choice numbering are computed
    here. The settings arrive as objects evaluated from TypeScript; they are
    given here as plain records. */
module Options {
  import opened Faults
  import opened Strings
  import Casing

  /** `setting.type`. */
  datatype Kind = Boolean | Number | Enum | Flags | OtherKind(name: string)

  /** `setting.@default`, as far as the generator looks at it. */
  datatype Default = BoolDefault(b: bool) | IntDefault(i: int) | TextDefault(text: string) | NoDefault

  /** One entry of `setting.values`: its `value` and its display `name`. */
  datatype ChoiceValue = ChoiceValue(value: string, name: string)

  /** A setting; `category` is absent when the object has none. */
  datatype Setting = Setting(key: string, name: string, category: Option<string>, kind: Kind,
                             default: Default, values: seq<ChoiceValue>)

  // ---------------------------------------------------------------------------
  // Selection.

  /** Keys that never become options. */
  const Excluded: set<string> :=
    {"distinctWorlds", "generateSpoilerLog", "logic", "mode", "noPlandoHints", "players", "teams"}

  /** `Included`: neither an excluded key nor an entrance setting. */
  predicate Included(s: Setting) {
    s.key !in Excluded && s.category != Some("entrances")
  }

  /** The seven excluded keys never become options, whatever their category;
      only the exact category `entrances` is dropped, so a setting in a
      category below it, or spelt in another case, is kept. */
  lemma IncludedCases(s: Setting)
    ensures |Excluded| == 7
    ensures forall k :: k in Excluded ==> !Included(s.(key := k))
    ensures !Included(s.(category := Some("entrances")))
    ensures s.key !in Excluded ==> Included(s.(category := Some("entrances.pool")))
    ensures s.key !in Excluded ==> Included(s.(category := Some("Entrances")))
    ensures s.key !in Excluded ==> Included(s.(category := None))
  {
    assert "entrances.pool" != "entrances";
    assert "Entrances" != "entrances";
  }

  /** `SETTINGS.Where(Included)`. */
  function Select(settings: seq<Setting>): (r: seq<Setting>)
    ensures |r| <= |settings|
    ensures forall k :: 0 <= k < |r| ==> Included(r[k])
  {
    if settings == [] then []
    else (if Included(settings[0]) then [settings[0]] else []) + Select(settings[1..])
  }

  /** A setting survives the selection exactly when it is included. */
  lemma {:induction false} SelectKeeps(settings: seq<Setting>, s: Setting)
    ensures s in Select(settings) <==> s in settings && Included(s)
  {
    if settings != [] {
      SelectKeeps(settings[1..], s);
      assert settings == [settings[0]] + settings[1..];
    }
  }

  /** The selection keeps the input order: it is the included settings of the
      first part followed by those of the rest. */
  lemma {:induction false} SelectAppend(a: seq<Setting>, b: seq<Setting>)
    ensures Select(a + b) == Select(a) + Select(b)
  {
    if a == [] {
      assert a + b == b;
    } else {
      assert (a + b)[1..] == a[1..] + b;
      SelectAppend(a[1..], b);
      Associative(if Included(a[0]) then [a[0]] else [], Select(a[1..]), Select(b));
    }
  }

  // ---------------------------------------------------------------------------
  // Class names.

  /** `Type`: the key with its first character upper-cased; an empty key
      fails at `key[0]`. */
  function TypeName(key: string): (r: Result<string>)
    ensures r.Ok? <==> key != []
    ensures r.Ok? ==> |r.value| == |key| && r.value[1..] == key[1..]
    ensures r.Ok? ==> !IsLower(r.value[0])
    ensures r.Ok? && !IsLower(key[0]) ==> r.value == key
  {
    if key == [] then Err(IndexOutOfRange) else Ok([UpperChar(key[0])] + key[1..])
  }

  /** Two keys that differ only in the case of their first letter name the
      same class. */
  lemma TypeNameFolds(key: string)
    requires key != [] && IsLower(key[0])
    ensures TypeName(key) == TypeName([UpperChar(key[0])] + key[1..])
  {
  }

  /** `BaseType`: the Archipelago option class a setting derives from. */
  function BaseType(s: Setting): (r: Result<string>)
    ensures r.Ok? <==> s.kind in {Number, Enum, Flags} || (s.kind == Boolean && s.default.BoolDefault?)
    ensures r.Err? ==> r.fault == InvalidOperation
    ensures s.kind == Boolean && r.Ok? ==> (r.value == "DefaultOnToggle" <==> s.default.b)
    ensures s.kind == Boolean && r.Ok? ==> (r.value == "Toggle" <==> !s.default.b)
    ensures s.kind == Number ==> r == Ok("Range")
    ensures s.kind == Enum ==> r == Ok("OoTMMChoice")
    ensures s.kind == Flags ==> r == Ok("OptionSet")
  {
    match s.kind
    case Boolean =>
      (match s.default
       case BoolDefault(b) => if b then Ok("DefaultOnToggle") else Ok("Toggle")
       case _ => Err(InvalidOperation))
    case Number => Ok("Range")
    case Enum => Ok("OoTMMChoice")
    case Flags => Ok("OptionSet")
    case OtherKind(_) => Err(InvalidOperation)
  }

  /** Distinct kinds get distinct base classes. */
  lemma BaseTypeSeparates(s: Setting, t: Setting)
    requires BaseType(s).Ok? && BaseType(t).Ok?
    ensures BaseType(s) == BaseType(t) <==> s.kind == t.kind && (s.kind == Boolean ==> s.default == t.default)
  {
  }

  // ---------------------------------------------------------------------------
  // Choices.

  /** The identifier a choice value is written under: `random` becomes
      `randomized`, anything else is snake-cased like a setting key. */
  function ChoiceIdentifier(value: string): (r: string)
    ensures forall k :: 0 <= k < |r| ==> !IsUpper(r[k])
    ensures value != "random" ==> r == Casing.SnakeCase(value)
  {
    if value == "random" then "randomized" else Casing.SnakeCase(value)
  }

  /** Only the exact value `random` is renamed; a value that snake-cases to
      `random` is not, so the two stay apart. */
  lemma ChoiceIdentifierExamples()
    ensures ChoiceIdentifier("random") == "randomized"
    ensures ChoiceIdentifier("Random") == "random"
  {
    assert Casing.Underscore("Random", 0) == "Random";
  }

  /** `setting.@default as string`: only a text default can match a name. */
  function DefaultName(d: Default): Option<string> {
    if d.TextDefault? then Some(d.text) else None
  }

  /** The positions, from `i` on, of the values whose name is `name`
      (`Where(value => value.Name == defaultName).Select(value => value.Index)`). */
  function Matches(values: seq<ChoiceValue>, name: Option<string>, i: nat): (m: seq<nat>)
    requires i <= |values|
    ensures forall k :: k in m <==> i <= k < |values| && Some(values[k].name) == name
    ensures forall a, b :: 0 <= a < b < |m| ==> m[a] < m[b]
    decreases |values| - i
  {
    if i == |values| then []
    else
      var rest := Matches(values, name, i + 1);
      assert forall b :: 0 <= b < |rest| ==> rest[b] in rest;
      (if Some(values[i].name) == name then [i] else []) + rest
  }

  /** `SingleOrDefault()` over the matching positions: 0 when no value has the
      default's name, its position when exactly one has, an
      InvalidOperationException when several have. */
  function DefaultIndex(values: seq<ChoiceValue>, d: Default): (r: Result<nat>)
    ensures r.Err? <==> exists a, b :: 0 <= a < b < |values| && Some(values[a].name) == DefaultName(d)
                                                             && Some(values[b].name) == DefaultName(d)
    ensures r.Ok? && r.value != 0 ==> r.value < |values| && Some(values[r.value].name) == DefaultName(d)
    ensures r.Ok? ==> forall k :: 0 <= k < |values| && Some(values[k].name) == DefaultName(d) ==> k == r.value
  {
    var m := Matches(values, DefaultName(d), 0);
    if |m| == 0 then Ok(0)
    else if |m| == 1 then
      assert m[0] in m;
      Ok(m[0])
    else
      assert m[0] in m && m[1] in m;
      Err(InvalidOperation)
  }

  /** `option_{identifier} = {index}`. */
  function OptionLine(v: ChoiceValue, k: nat): string {
    "option_" + ChoiceIdentifier(v.value) + " = " + NatToString(k)
  }

  /** The option line of every value, numbered by its position. */
  function OptionLines(values: seq<ChoiceValue>): (r: seq<string>)
    ensures |r| == |values|
    ensures forall k :: 0 <= k < |values| ==> r[k] == OptionLine(values[k], k)
  {
    seq(|values|, k requires 0 <= k < |values| => OptionLine(values[k], k))
  }

  /** `"{name}",` one level in. */
  function DisplayLine(v: ChoiceValue): string {
    "    \"" + v.name + "\","
  }

  /** The display line of every value, in order. */
  function DisplayLines(values: seq<ChoiceValue>): (r: seq<string>)
    ensures |r| == |values|
    ensures forall k :: 0 <= k < |values| ==> r[k] == DisplayLine(values[k])
  {
    seq(|values|, k requires 0 <= k < |values| => DisplayLine(values[k]))
  }

  /** `WriteChoiceAsync`: nothing for a choice without values; otherwise the
      numbered identifiers, the default's position and the display names. */
  function ChoiceBlock(values: seq<ChoiceValue>, d: Default): (r: Result<seq<string>>)
    ensures values == [] ==> r == Ok([])
    ensures values != [] ==> (r.Err? <==> DefaultIndex(values, d).Err?)
    ensures values != [] && r.Ok? ==>
              var n := |values|;
              && |r.value| == 2 * n + 6
              && r.value[..n] == OptionLines(values)
              && r.value[n + 1] == "default = " + NatToString(DefaultIndex(values, d).value)
              && r.value[n + 4..2 * n + 4] == DisplayLines(values)
  {
    if values == [] then Ok([])
    else
      var index :- DefaultIndex(values, d);
      var head := OptionLines(values) + ["", "default = " + NatToString(index), "", "display_names = ["];
      var r := head + DisplayLines(values) + ["]", ""];
      BlockParts(OptionLines(values), "default = " + NatToString(index), DisplayLines(values));
      Ok(r)
  }

  /** Where the parts of a choice block sit in it. */
  lemma BlockParts(options: seq<string>, default: string, display: seq<string>)
    ensures var r := options + ["", default, "", "display_names = ["] + display + ["]", ""];
            && |r| == |options| + |display| + 6
            && r[..|options|] == options
            && r[|options| + 1] == default
            && r[|options| + 4..|options| + 4 + |display|] == display
  {
    var head := options + ["", default, "", "display_names = ["];
    var r := head + display + ["]", ""];
    assert r[..|options|] == options by {
      assert r[..|options|] == head[..|options|];
    }
    assert r[|options| + 4..|options| + 4 + |display|] == display;
  }

  /** Value `k` is announced under its position `k`, and a name the default
      names alone is the default. */
  lemma ChoiceNumbering(values: seq<ChoiceValue>, d: Default, k: nat)
    requires k < |values| && DefaultName(d) == Some(values[k].name)
    requires forall j :: 0 <= j < |values| && j != k ==> values[j].name != values[k].name
    ensures ChoiceBlock(values, d).Ok?
    ensures ChoiceBlock(values, d).value[k] == "option_" + ChoiceIdentifier(values[k].value) + " = " + NatToString(k)
    ensures ChoiceBlock(values, d).value[|values| + 1] == "default = " + NatToString(k)
  {
    var r := ChoiceBlock(values, d);
    assert DefaultIndex(values, d).Ok?;
    assert r.value[..|values|][k] == r.value[k];
  }

  // ---------------------------------------------------------------------------
  // Dotted paths.

  /** `path.Split('.')`: the segments between the dots, empty ones included;
      there is always at least one. */
  function Split(path: string): (parts: seq<string>)
    ensures |parts| > 0
    ensures forall k :: 0 <= k < |parts| ==> '.' !in parts[k]
    decreases |path|
  {
    if path == [] then [""]
    else if path[0] == '.' then [""] + Split(path[1..])
    else
      var rest := Split(path[1..]);
      [[path[0]] + rest[0]] + rest[1..]
  }

  /** Joining the segments with dots gives the path back. */
  lemma {:induction false} JoinSplit(path: string)
    ensures Join(".", Split(path)) == path
    decreases |path|
  {
    if path != [] {
      var rest := Split(path[1..]);
      JoinSplit(path[1..]);
      if path[0] == '.' {
        assert Split(path) == [""] + rest;
        if |rest| == 1 {
          assert Join(".", Split(path)) == "" + "." + rest[0];
        } else {
          assert Join(".", Split(path)) == "" + "." + Join(".", rest);
        }
      } else if |rest| == 1 {
        assert Join(".", Split(path)) == [path[0]] + rest[0];
      } else {
        assert Join(".", rest) == rest[0] + "." + Join(".", rest[1..]);
        assert Split(path)[1..] == rest[1..];
        assert Join(".", Split(path)) == [path[0]] + rest[0] + "." + Join(".", rest[1..]);
      }
      assert path == [path[0]] + path[1..];
    }
  }

  /** A segment without dots followed by a dot starts a new segment. */
  lemma {:induction false} SplitAfter(a: string, b: string)
    requires '.' !in a
    ensures Split(a + "." + b) == [a] + Split(b)
    ensures Split(a) == [a]
    decreases |a|
  {
    if a == [] {
      assert a + "." + b == ['.'] + b;
      assert (['.'] + b)[1..] == b;
    } else {
      SplitAfter(a[1..], b);
      assert (a + "." + b)[1..] == a[1..] + "." + b;
      assert [a[0]] + a[1..] == a;
    }
  }

  /** Splitting dot-free segments joined with dots gives the segments back. */
  lemma {:induction false} SplitJoin(parts: seq<string>)
    requires |parts| > 0
    requires forall k :: 0 <= k < |parts| ==> '.' !in parts[k]
    ensures Split(Join(".", parts)) == parts
    decreases |parts|
  {
    var head, rest := parts[0], parts[1..];
    if rest == [] {
      SplitAfter(head, "");
      assert parts == [head];
    } else {
      var tail := Join(".", rest);
      assert Join(".", parts) == head + "." + tail;
      SplitJoin(rest);
      SplitAfter(head, tail);
      assert parts == [head] + rest;
    }
  }

  /** Joining one more segment. */
  lemma {:induction false} JoinSnoc(parts: seq<string>, last: string)
    requires |parts| > 0
    ensures Join(".", parts + [last]) == Join(".", parts) + "." + last
    decreases |parts|
  {
    if |parts| > 1 {
      assert (parts + [last])[1..] == parts[1..] + [last];
      JoinSnoc(parts[1..], last);
    }
  }

  // ---------------------------------------------------------------------------
  // The category tree.

  /** One `Category` object: its dotted name (none for the root), its children
      by segment (`map`) and its children in creation order (`Categories`). A
      category refers to another by its position in the list of categories
      created so far; the settings filed under it (`Settings`) are kept by the
      tree at the same position. */
  datatype Category = Category(name: Option<string>, children: map<string, nat>, categories: seq<nat>)

  /** `result.Name is null ? part : $"{result.Name}.{part}"`. */
  function ChildName(parent: Option<string>, part: string): string {
    if parent.None? then part else parent.value + "." + part
  }

  /** Every reference points to a category created later, so walks down the
      tree end. */
  predicate Forward(nodes: seq<Category>) {
    && (forall p, j :: 0 <= p < |nodes| && 0 <= j < |nodes[p].categories| ==>
          p < nodes[p].categories[j] < |nodes|)
    && (forall p, part :: 0 <= p < |nodes| && part in nodes[p].children ==>
          p < nodes[p].children[part] < |nodes|)
  }

  /** The tree the methods keep: position 0 is the unnamed root; every other
      category is listed once among its parent's `Categories`, and a child
      under segment `part` is named after its parent and `part`. `parents`
      records the parent of each category. */
  ghost predicate WellFormed(nodes: seq<Category>, parents: seq<nat>) {
    && |nodes| > 0 && |parents| == |nodes| && nodes[0].name == None
    && Forward(nodes)
    && ParentsList(nodes, parents)
    && ListedOnce(nodes, parents)
    && ChildrenNamed(nodes)
  }

  /** Every category but the root is a child of an earlier one. */
  ghost predicate ParentsList(nodes: seq<Category>, parents: seq<nat>)
    requires |parents| == |nodes|
  {
    forall k :: 0 < k < |nodes| ==> parents[k] < k && k in nodes[parents[k]].categories
  }

  /** A category is listed by its parent only, and once. */
  ghost predicate ListedOnce(nodes: seq<Category>, parents: seq<nat>)
    requires |parents| == |nodes| && Forward(nodes)
  {
    && (forall p, j :: 0 <= p < |nodes| && 0 <= j < |nodes[p].categories| ==>
          parents[nodes[p].categories[j]] == p)
    && (forall p, i, j :: 0 <= p < |nodes| && 0 <= i < j < |nodes[p].categories| ==>
          nodes[p].categories[i] != nodes[p].categories[j])
  }

  /** The map and the list agree, and children are named after the path. */
  predicate ChildrenNamed(nodes: seq<Category>)
    requires Forward(nodes)
  {
    forall p, part :: 0 <= p < |nodes| && part in nodes[p].children ==>
      nodes[p].children[part] in nodes[p].categories &&
      nodes[nodes[p].children[part]].name == Some(ChildName(nodes[p].name, part))
  }

  /** The category the segments lead to from the root, if every step exists. */
  function Walk(nodes: seq<Category>, parts: seq<string>): (r: Option<nat>)
    requires |nodes| > 0 && Forward(nodes)
    ensures r.Some? ==> r.value < |nodes|
    decreases |parts|
  {
    if parts == [] then Some(0)
    else
      match Walk(nodes, parts[..|parts| - 1])
      case None => None
      case Some(p) =>
        var part := parts[|parts| - 1];
        if part in nodes[p].children then Some(nodes[p].children[part]) else None
  }

  /** The category `Get(path)` finds without creating anything. */
  function Lookup(nodes: seq<Category>, path: Option<string>): (r: Option<nat>)
    requires |nodes| > 0 && Forward(nodes)
    ensures r.Some? ==> r.value < |nodes|
  {
    if path.None? then Some(0) else Walk(nodes, Split(path.value))
  }

  /** `b` is `a` with categories added: names, children and the order of
      `Categories` of the old categories are kept. */
  predicate Grows(a: seq<Category>, b: seq<Category>) {
    && |a| <= |b|
    && (forall k :: 0 <= k < |a| ==> b[k].name == a[k].name && a[k].categories <= b[k].categories)
    && (forall k, part :: 0 <= k < |a| && part in a[k].children ==>
          part in b[k].children && b[k].children[part] == a[k].children[part])
  }

  /** No setting moved: old categories keep theirs and new ones have none. */
  predicate SettingsKept(a: seq<seq<Setting>>, b: seq<seq<Setting>>) {
    |a| <= |b| && forall k {:trigger Before(a, k)} :: 0 <= k < |b| ==> b[k] == Before(a, k)
  }

  /** The settings lists `a` followed by empty ones for the categories
      created since, up to `n` categories in all. */
  function Padded(a: seq<seq<Setting>>, n: nat): (r: seq<seq<Setting>>)
    requires |a| <= n
    ensures |r| == n && SettingsKept(a, r)
    ensures n == |a| ==> r == a
  {
    var r := a + seq(n - |a|, _ => []);
    assert forall k :: 0 <= k < n ==> r[k] == Before(a, k);
    r
  }

  /** The settings category `k` held in `a`; none if it is new. */
  function Before(a: seq<seq<Setting>>, k: nat): seq<Setting> {
    if k < |a| then a[k] else []
  }

  /** The tree after `new Category(...)` is added under segment `part` of `p`. */
  function WithChild(nodes: seq<Category>, p: nat, part: string): seq<Category>
    requires p < |nodes|
  {
    var c := nodes[p];
    nodes[p := c.(children := c.children[part := |nodes|], categories := c.categories + [|nodes|])]
      + [Category(Some(ChildName(c.name, part)), map[], [])]
  }

  lemma WithChildFacts(nodes: seq<Category>, parents: seq<nat>, p: nat, part: string)
    requires WellFormed(nodes, parents) && p < |nodes| && part !in nodes[p].children
    ensures WellFormed(WithChild(nodes, p, part), parents + [p])
    ensures Grows(nodes, WithChild(nodes, p, part))
    ensures part in WithChild(nodes, p, part)[p].children
    ensures WithChild(nodes, p, part)[p].children[part] == |nodes|
  {
    WithChildForward(nodes, p, part);
    WithChildParents(nodes, parents, p, part);
    WithChildOnce(nodes, parents, p, part);
    WithChildNamed(nodes, p, part);
    WithChildGrows(nodes, p, part);
  }

  lemma WithChildForward(nodes: seq<Category>, p: nat, part: string)
    requires Forward(nodes) && p < |nodes|
    ensures Forward(WithChild(nodes, p, part))
  {
  }

  lemma WithChildParents(nodes: seq<Category>, parents: seq<nat>, p: nat, part: string)
    requires |parents| == |nodes| && ParentsList(nodes, parents) && p < |nodes|
    ensures ParentsList(WithChild(nodes, p, part), parents + [p])
  {
    var next := WithChild(nodes, p, part);
    var ps := parents + [p];
    forall k | 0 < k < |next|
      ensures ps[k] < k && k in next[ps[k]].categories
    {
      if k < |nodes| {
        assert k in nodes[parents[k]].categories;
      } else {
        assert next[p].categories[|nodes[p].categories|] == k;
      }
    }
  }

  lemma WithChildOnce(nodes: seq<Category>, parents: seq<nat>, p: nat, part: string)
    requires |parents| == |nodes| && Forward(nodes) && ListedOnce(nodes, parents) && p < |nodes|
    ensures Forward(WithChild(nodes, p, part))
    ensures ListedOnce(WithChild(nodes, p, part), parents + [p])
  {
    var next := WithChild(nodes, p, part);
    WithChildForward(nodes, p, part);
    forall q, i, j | 0 <= q < |next| && 0 <= i < j < |next[q].categories|
      ensures next[q].categories[i] != next[q].categories[j]
    {
      if q == p && j == |nodes[p].categories| {
        assert nodes[p].categories[i] < |nodes|;
      }
    }
  }

  lemma WithChildNamed(nodes: seq<Category>, p: nat, part: string)
    requires Forward(nodes) && ChildrenNamed(nodes) && p < |nodes| && part !in nodes[p].children
    ensures Forward(WithChild(nodes, p, part))
    ensures ChildrenNamed(WithChild(nodes, p, part))
  {
    WithChildForward(nodes, p, part);
  }

  lemma WithChildGrows(nodes: seq<Category>, p: nat, part: string)
    requires p < |nodes| && part !in nodes[p].children
    ensures Grows(nodes, WithChild(nodes, p, part))
    ensures part in WithChild(nodes, p, part)[p].children
    ensures WithChild(nodes, p, part)[p].children[part] == |nodes|
  {
  }

  lemma {:induction false} GrowsTrans(a: seq<Category>, b: seq<Category>, c: seq<Category>)
    requires Grows(a, b) && Grows(b, c)
    ensures Grows(a, c)
  {
    forall k | 0 <= k < |a|
      ensures c[k].categories[..|a[k].categories|] == a[k].categories
    {
      assert b[k].categories[..|a[k].categories|] == a[k].categories;
      assert c[k].categories[..|b[k].categories|] == b[k].categories;
    }
  }

  /** A walk that exists keeps its end when the tree grows. */
  lemma {:induction false} WalkGrows(a: seq<Category>, b: seq<Category>, parts: seq<string>)
    requires |a| > 0 && Forward(a) && Forward(b) && Grows(a, b)
    requires Walk(a, parts).Some?
    ensures Walk(b, parts) == Walk(a, parts)
    decreases |parts|
  {
    if parts != [] {
      WalkGrows(a, b, parts[..|parts| - 1]);
    }
  }

  lemma LookupGrows(a: seq<Category>, b: seq<Category>, path: Option<string>)
    requires |a| > 0 && Forward(a) && Forward(b) && Grows(a, b)
    requires Lookup(a, path).Some?
    ensures Lookup(b, path) == Lookup(a, path)
  {
    if path.Some? {
      WalkGrows(a, b, Split(path.value));
    }
  }

  /** A walk that exists passes through every prefix of its segments. */
  lemma {:induction false} WalkPrefix(nodes: seq<Category>, parts: seq<string>, j: nat)
    requires |nodes| > 0 && Forward(nodes)
    requires j <= |parts| && Walk(nodes, parts).Some?
    ensures Walk(nodes, parts[..j]).Some?
    decreases |parts|
  {
    if j < |parts| {
      var shorter := parts[..|parts| - 1];
      WalkPrefix(nodes, shorter, j);
      assert shorter[..j] == parts[..j];
    } else {
      assert parts[..j] == parts;
    }
  }

  /** The category a walk ends at is named by the segments joined with dots. */
  lemma {:induction false} WalkName(nodes: seq<Category>, parents: seq<nat>, parts: seq<string>)
    requires WellFormed(nodes, parents) && parts != [] && Walk(nodes, parts).Some?
    ensures nodes[Walk(nodes, parts).value].name == Some(Join(".", parts))
    decreases |parts|
  {
    var shorter := parts[..|parts| - 1];
    var last := parts[|parts| - 1];
    var p := Walk(nodes, shorter).value;
    if shorter == [] {
      assert p == 0;
      assert parts == [last];
    } else {
      WalkName(nodes, parents, shorter);
      JoinSnoc(shorter, last);
      assert shorter + [last] == parts;
    }
  }

  /** One step of `Get`: the segment exists under the category reached so far. */
  lemma WalkStep(nodes: seq<Category>, parts: seq<string>, i: nat, r: nat)
    requires |nodes| > 0 && Forward(nodes)
    requires i < |parts| && Walk(nodes, parts[..i]) == Some(r) && parts[i] in nodes[r].children
    ensures Walk(nodes, parts[..i + 1]) == Some(nodes[r].children[parts[i]])
  {
    assert parts[..i + 1][..i] == parts[..i];
  }

  /** A missing segment means the whole path did not exist. */
  lemma NoStep(nodes: seq<Category>, parts: seq<string>, i: nat, r: nat)
    requires |nodes| > 0 && Forward(nodes)
    requires i < |parts| && Walk(nodes, parts[..i]) == Some(r) && parts[i] !in nodes[r].children
    ensures Walk(nodes, parts).None?
  {
    assert parts[..i + 1][..i] == parts[..i];
    if Walk(nodes, parts).Some? {
      WalkPrefix(nodes, parts, i + 1);
    }
  }

  /** Category `k` is reached by following one of the first `i` segments'
      prefixes (at least one segment long). */
  predicate OnWalk(nodes: seq<Category>, parts: seq<string>, i: nat, k: nat)
    requires |nodes| > 0 && Forward(nodes) && i <= |parts|
  {
    exists j :: 0 < j <= i && Walk(nodes, parts[..j]) == Some(k)
  }

  /** Category `k` lies on the dotted path: some non-empty prefix of its
      segments leads to it. */
  predicate OnPath(nodes: seq<Category>, path: Option<string>, k: nat)
    requires |nodes| > 0 && Forward(nodes)
  {
    path.Some? && OnWalk(nodes, Split(path.value), |Split(path.value)|, k)
  }

  /** Every category of `nodes` that `before` did not have lies on the path. */
  predicate CreatedOnPath(before: seq<Category>, nodes: seq<Category>, path: Option<string>)
    requires |nodes| > 0 && Forward(nodes)
  {
    forall k :: |before| <= k < |nodes| ==> OnPath(nodes, path, k)
  }

  lemma OnWalkGrows(a: seq<Category>, b: seq<Category>, parts: seq<string>, i: nat, k: nat)
    requires |a| > 0 && Forward(a) && Forward(b) && Grows(a, b) && i <= |parts|
    requires OnWalk(a, parts, i, k)
    ensures OnWalk(b, parts, i, k)
  {
    var j :| 0 < j <= i && Walk(a, parts[..j]) == Some(k);
    WalkGrows(a, b, parts[..j]);
  }

  lemma OnPathGrows(a: seq<Category>, b: seq<Category>, path: Option<string>, k: nat)
    requires |a| > 0 && Forward(a) && Forward(b) && Grows(a, b)
    requires OnPath(a, path, k)
    ensures OnPath(b, path, k)
  {
    OnWalkGrows(a, b, Split(path.value), |Split(path.value)|, k);
  }

  /** What `Get` knows after `i` segments: it stands at `r`, the tree has only
      grown, every category created so far lies on the first `i` segments,
      and nothing was created if the whole path already existed. */
  ghost predicate Descent(start: seq<Category>, nodes: seq<Category>, parents: seq<nat>,
                          parts: seq<string>, i: nat, r: nat)
  {
    && i <= |parts| && |start| > 0 && Forward(start)
    && WellFormed(nodes, parents) && Grows(start, nodes)
    && Walk(nodes, parts[..i]) == Some(r)
    && (forall k :: |start| <= k < |nodes| ==> OnWalk(nodes, parts, i, k))
    && (Walk(start, parts).Some? ==> nodes == start)
  }

  /** The tree after looking up segment `part` under `p`, creating it if
      absent. */
  function Extend(nodes: seq<Category>, p: nat, part: string): seq<Category>
    requires p < |nodes|
  {
    if part in nodes[p].children then nodes else WithChild(nodes, p, part)
  }

  function ExtendParents(nodes: seq<Category>, parents: seq<nat>, p: nat, part: string): seq<nat>
    requires p < |nodes|
  {
    if part in nodes[p].children then parents else parents + [p]
  }

  lemma DescentStep(start: seq<Category>, nodes: seq<Category>, parents: seq<nat>,
                    parts: seq<string>, i: nat, r: nat)
    requires Descent(start, nodes, parents, parts, i, r) && i < |parts|
    ensures r < |nodes|
    ensures parts[i] in Extend(nodes, r, parts[i])[r].children
    ensures Descent(start, Extend(nodes, r, parts[i]), ExtendParents(nodes, parents, r, parts[i]),
                    parts, i + 1, Extend(nodes, r, parts[i])[r].children[parts[i]])
  {
    var part := parts[i];
    if part !in nodes[r].children {
      NoStep(nodes, parts, i, r);
      var next := WithChild(nodes, r, part);
      WithChildFacts(nodes, parents, r, part);
      GrowsTrans(start, nodes, next);
      WalkGrows(nodes, next, parts[..i]);
      WalkStep(next, parts, i, r);
      CreatedStep(start, nodes, next, parts, i, i + 1);
    } else {
      WalkStep(nodes, parts, i, r);
      OnWalkLonger(nodes, start, parts, i, i + 1);
    }
  }

  /** Prefixes of the first `i` segments are prefixes of the first `n`. */
  lemma OnWalkLonger(nodes: seq<Category>, start: seq<Category>, parts: seq<string>, i: nat, n: nat)
    requires |nodes| > 0 && Forward(nodes) && i <= n <= |parts|
    requires forall k :: |start| <= k < |nodes| ==> OnWalk(nodes, parts, i, k)
    ensures forall k :: |start| <= k < |nodes| ==> OnWalk(nodes, parts, n, k)
  {
    forall k | |start| <= k < |nodes|
      ensures OnWalk(nodes, parts, n, k)
    {
      assert OnWalk(nodes, parts, i, k);
      OnWalkWider(nodes, parts, i, n, k);
    }
  }

  /** The category created at step `i` is the one the first `i + 1` segments
      lead to; earlier ones stay on their prefixes. */
  lemma CreatedStep(start: seq<Category>, nodes: seq<Category>, next: seq<Category>,
                    parts: seq<string>, i: nat, n: nat)
    requires n == i + 1 && n <= |parts| && |nodes| > 0 && Forward(nodes) && Forward(next) && Grows(nodes, next)
    requires |next| == |nodes| + 1 && Walk(next, parts[..n]) == Some(|nodes|)
    requires forall k :: |start| <= k < |nodes| ==> OnWalk(nodes, parts, i, k)
    ensures forall k :: |start| <= k < |next| ==> OnWalk(next, parts, n, k)
  {
    forall k | |start| <= k < |next|
      ensures OnWalk(next, parts, n, k)
    {
      if k < |nodes| {
        assert OnWalk(nodes, parts, i, k);
        OnWalkGrows(nodes, next, parts, i, k);
        OnWalkWider(next, parts, i, n, k);
      } else {
        assert k == |nodes|;
        OnWalkEnd(next, parts, n, k);
      }
    }
  }

  lemma OnWalkEnd(nodes: seq<Category>, parts: seq<string>, n: nat, k: nat)
    requires |nodes| > 0 && Forward(nodes) && 0 < n <= |parts| && Walk(nodes, parts[..n]) == Some(k)
    ensures OnWalk(nodes, parts, n, k)
  {
  }

  lemma OnWalkWider(nodes: seq<Category>, parts: seq<string>, i: nat, n: nat, k: nat)
    requires |nodes| > 0 && Forward(nodes) && i <= n <= |parts| && OnWalk(nodes, parts, i, k)
    ensures OnWalk(nodes, parts, n, k)
  {
    var j :| 0 < j <= i && Walk(nodes, parts[..j]) == Some(k);
  }

  /** What category `k` holds once the first `n` settings have been filed:
      what it held in `start`, followed by those of the `n` whose path leads
      to it, in input order. */
  function Filed(start: seq<seq<Setting>>, nodes: seq<Category>, settings: seq<Setting>, n: nat, k: nat): seq<Setting>
    requires |nodes| > 0 && Forward(nodes) && n <= |settings|
    decreases n
  {
    if n == 0 then Before(start, k)
    else
      Filed(start, nodes, settings, n - 1, k)
        + (if Lookup(nodes, settings[n - 1].category) == Some(k) then [settings[n - 1]] else [])
  }

  /** The paths of the first `n` settings all name categories of the tree. */
  predicate AllFound(nodes: seq<Category>, settings: seq<Setting>, n: nat)
    requires |nodes| > 0 && Forward(nodes) && n <= |settings|
  {
    forall j :: 0 <= j < n ==> Lookup(nodes, settings[j].category).Some?
  }

  /** Filing depends only on where the paths lead, which growth keeps. */
  lemma {:induction false} FiledStable(start: seq<seq<Setting>>, a: seq<Category>, b: seq<Category>,
                                       settings: seq<Setting>, n: nat, k: nat)
    requires |a| > 0 && Forward(a) && Forward(b) && Grows(a, b)
    requires n <= |settings| && AllFound(a, settings, n)
    ensures Filed(start, b, settings, n, k) == Filed(start, a, settings, n, k)
    decreases n
  {
    if n > 0 {
      LookupGrows(a, b, settings[n - 1].category);
      FiledStable(start, a, b, settings, n - 1, k);
    }
  }

  /** Nothing is filed under a category the tree does not have yet. */
  lemma {:induction false} FiledNew(start: seq<seq<Setting>>, nodes: seq<Category>, settings: seq<Setting>, n: nat, k: nat)
    requires |nodes| > 0 && Forward(nodes) && n <= |settings| && k >= |nodes|
    ensures Filed(start, nodes, settings, n, k) == Before(start, k)
    decreases n
  {
    if n > 0 {
      FiledNew(start, nodes, settings, n - 1, k);
    }
  }

  /** Every category of `nodes` that `start` did not have lies on the path of
      one of the first `n` settings. */
  predicate CreatedForSome(start: seq<Category>, nodes: seq<Category>, settings: seq<Setting>, n: nat)
    requires |nodes| > 0 && Forward(nodes) && n <= |settings|
  {
    forall k :: |start| <= k < |nodes| ==> CreatedFor(nodes, settings, n, k)
  }

  /** Category `k` lies on the path of one of the first `n` settings. */
  predicate CreatedFor(nodes: seq<Category>, settings: seq<Setting>, n: nat, k: nat)
    requires |nodes| > 0 && Forward(nodes) && n <= |settings|
  {
    exists j :: 0 <= j < n && OnPath(nodes, settings[j].category, k)
  }

  /** What `AddRange` knows after filing `n` settings into a tree that held
      `start` and `startFiled` before. */
  ghost predicate Filing(start: seq<Category>, startFiled: seq<seq<Setting>>, nodes: seq<Category>, parents: seq<nat>,
                         filed: seq<seq<Setting>>, settings: seq<Setting>, n: nat)
  {
    && |start| > 0 && Forward(start) && |startFiled| == |start| && n <= |settings|
    && WellFormed(nodes, parents) && Grows(start, nodes) && |filed| == |nodes|
    && AllFound(nodes, settings, n)
    && CreatedForSome(start, nodes, settings, n)
    && (forall k {:trigger Filed(startFiled, nodes, settings, n, k)} :: 0 <= k < |nodes| ==> filed[k] == Filed(startFiled, nodes, settings, n, k))
  }

  /** The effect of `Add(s)`: the tree grew by categories on the setting's
      path only, the path names a category, and that category alone gained `s`
      at the end of its settings. */
  predicate Added(before: seq<Category>, beforeFiled: seq<seq<Setting>>, nodes: seq<Category>,
                  filed: seq<seq<Setting>>, s: Setting)
  {
    && |nodes| > 0 && Forward(nodes) && Grows(before, nodes)
    && Lookup(nodes, s.category).Some? && |filed| == |nodes|
    && CreatedOnPath(before, nodes, s.category)
    && (forall k {:trigger Before(beforeFiled, k)} :: 0 <= k < |nodes| ==>
          filed[k] == Before(beforeFiled, k) + (if Lookup(nodes, s.category) == Some(k) then [s] else []))
  }

  lemma FilingStep(start: seq<Category>, startFiled: seq<seq<Setting>>,
                   n0: seq<Category>, p0: seq<nat>, f0: seq<seq<Setting>>,
                   n1: seq<Category>, p1: seq<nat>, f1: seq<seq<Setting>>,
                   settings: seq<Setting>, i: nat)
    requires i < |settings| && Filing(start, startFiled, n0, p0, f0, settings, i)
    requires WellFormed(n1, p1) && Added(n0, f0, n1, f1, settings[i])
    ensures Filing(start, startFiled, n1, p1, f1, settings, i + 1)
  {
    GrowsTrans(start, n0, n1);
    FoundStep(n0, n1, settings, i);
    CreatedForStep(start, n0, n1, settings, i);
    forall k | 0 <= k < |n1|
      ensures f1[k] == Filed(startFiled, n1, settings, i + 1, k)
    {
      FiledStep(start, startFiled, n0, p0, f0, n1, settings, i, k);
    }
  }

  lemma CreatedForStep(start: seq<Category>, n0: seq<Category>, n1: seq<Category>, settings: seq<Setting>, i: nat)
    requires |n0| > 0 && Forward(n0) && Forward(n1) && Grows(n0, n1) && i < |settings| && |start| <= |n0|
    requires CreatedForSome(start, n0, settings, i) && CreatedOnPath(n0, n1, settings[i].category)
    ensures CreatedForSome(start, n1, settings, i + 1)
  {
    var n := i + 1;
    forall k | |start| <= k < |n1|
      ensures CreatedFor(n1, settings, n, k)
    {
      if k < |n0| {
        assert CreatedFor(n0, settings, i, k);
        var j :| 0 <= j < i && OnPath(n0, settings[j].category, k);
        OnPathGrows(n0, n1, settings[j].category, k);
      } else {
        assert OnPath(n1, settings[i].category, k);
      }
    }
  }

  lemma FoundStep(n0: seq<Category>, n1: seq<Category>, settings: seq<Setting>, i: nat)
    requires |n0| > 0 && Forward(n0) && Forward(n1) && Grows(n0, n1) && i < |settings|
    requires AllFound(n0, settings, i) && Lookup(n1, settings[i].category).Some?
    ensures AllFound(n1, settings, i + 1)
  {
    forall j | 0 <= j < i
      ensures Lookup(n1, settings[j].category).Some?
    {
      LookupGrows(n0, n1, settings[j].category);
    }
  }

  lemma FiledStep(start: seq<Category>, startFiled: seq<seq<Setting>>,
                  n0: seq<Category>, p0: seq<nat>, f0: seq<seq<Setting>>, n1: seq<Category>,
                  settings: seq<Setting>, i: nat, k: nat)
    requires i < |settings| && Filing(start, startFiled, n0, p0, f0, settings, i)
    requires Forward(n1) && Grows(n0, n1) && k < |n1|
    ensures Before(f0, k) + (if Lookup(n1, settings[i].category) == Some(k) then [settings[i]] else [])
            == Filed(startFiled, n1, settings, i + 1, k)
  {
    FiledStable(startFiled, n0, n1, settings, i, k);
    if k >= |n0| {
      FiledNew(startFiled, n0, settings, i, k);
    }
  }

  // ---------------------------------------------------------------------------
  // Pre-order listing.

  /** `Flatten(category)`: the category, then the listing of each of its
      children in creation order. */
  function Flatten(nodes: seq<Category>, n: nat): (r: seq<nat>)
    requires Forward(nodes) && n < |nodes|
    ensures |r| > 0 && r[0] == n
    ensures forall x :: x in r ==> n <= x < |nodes|
    decreases |nodes| - n, 1
  {
    [n] + FlattenFrom(nodes, n, 0)
  }

  /** The listings of the children of `p` from the `j`-th on. */
  function FlattenFrom(nodes: seq<Category>, p: nat, j: nat): (r: seq<nat>)
    requires Forward(nodes) && p < |nodes| && j <= |nodes[p].categories|
    ensures forall x :: x in r ==> p < x < |nodes|
    decreases |nodes| - p, 0, |nodes[p].categories| - j
  {
    if j == |nodes[p].categories| then []
    else Flatten(nodes, nodes[p].categories[j]) + FlattenFrom(nodes, p, j + 1)
  }

  /** Every earlier category has an earlier parent. */
  ghost predicate ParentsBelow(parents: seq<nat>) {
    forall k :: 0 < k < |parents| ==> parents[k] < k
  }

  /** `x` is `n` or lies below it. */
  ghost predicate Below(parents: seq<nat>, x: nat, n: nat)
    requires ParentsBelow(parents) && x < |parents|
    decreases x
  {
    x == n || (n < x && Below(parents, parents[x], n))
  }

  lemma {:induction false} BelowTrans(parents: seq<nat>, x: nat, y: nat, n: nat)
    requires ParentsBelow(parents) && x < |parents| && y < |parents|
    requires Below(parents, x, y) && Below(parents, y, n)
    ensures Below(parents, x, n)
    decreases x
  {
    if x != y {
      BelowTrans(parents, parents[x], y, n);
    }
  }

  lemma {:induction false} BelowBound(parents: seq<nat>, x: nat, n: nat)
    requires ParentsBelow(parents) && x < |parents| && Below(parents, x, n)
    ensures n <= x
    decreases x
  {
    if x != n {
      BelowBound(parents, parents[x], n);
    }
  }

  /** Two children of one category share no descendant. */
  lemma {:induction false} BelowSiblings(parents: seq<nat>, x: nat, a: nat, b: nat)
    requires ParentsBelow(parents) && x < |parents| && 0 < a < |parents| && 0 < b < |parents|
    requires parents[a] == parents[b] && Below(parents, x, a) && Below(parents, x, b)
    ensures a == b
    decreases x
  {
    if x == a || x == b {
      if a != b {
        assert false;
      }
    } else {
      BelowSiblings(parents, parents[x], a, b);
    }
  }

  /** The child of `n` on the way up from `x`. */
  lemma {:induction false} ChildToward(parents: seq<nat>, x: nat, n: nat) returns (c: nat)
    requires ParentsBelow(parents) && x < |parents| && Below(parents, x, n) && x != n
    ensures 0 < c < |parents| && parents[c] == n && Below(parents, x, c)
    decreases x
  {
    if parents[x] == n {
      c := x;
    } else {
      c := ChildToward(parents, parents[x], n);
    }
  }

  /** Everything listed from `n` lies below `n`. */
  lemma {:induction false} FlattenBelow(nodes: seq<Category>, parents: seq<nat>, n: nat, x: nat)
    requires WellFormed(nodes, parents) && n < |nodes| && x in Flatten(nodes, n)
    ensures ParentsBelow(parents) && Below(parents, x, n)
    decreases |nodes| - n, 1
  {
    if x != n {
      var j := FromWitness(nodes, n, 0, x);
      var c := nodes[n].categories[j];
      FlattenBelow(nodes, parents, c, x);
      BelowTrans(parents, x, c, n);
    }
  }

  /** A category listed from the `i`-th child on is listed from some child. */
  lemma {:induction false} FromWitness(nodes: seq<Category>, p: nat, i: nat, x: nat) returns (j: nat)
    requires Forward(nodes) && p < |nodes| && i <= |nodes[p].categories| && x in FlattenFrom(nodes, p, i)
    ensures i <= j < |nodes[p].categories| && x in Flatten(nodes, nodes[p].categories[j])
    decreases |nodes[p].categories| - i
  {
    if x in Flatten(nodes, nodes[p].categories[i]) {
      j := i;
    } else {
      j := FromWitness(nodes, p, i + 1, x);
    }
  }

  /** The listing of a child is part of the listing from any earlier child. */
  lemma {:induction false} FromHas(nodes: seq<Category>, p: nat, i: nat, j: nat, x: nat)
    requires Forward(nodes) && p < |nodes| && i <= j < |nodes[p].categories|
    requires x in Flatten(nodes, nodes[p].categories[j])
    ensures x in FlattenFrom(nodes, p, i)
    decreases j - i
  {
    if i < j {
      FromHas(nodes, p, i + 1, j, x);
    }
  }

  /** Everything below `n` is listed from `n`. */
  lemma {:induction false} FlattenHas(nodes: seq<Category>, parents: seq<nat>, n: nat, x: nat)
    requires WellFormed(nodes, parents) && n < |nodes| && x < |nodes|
    requires ParentsBelow(parents) && Below(parents, x, n)
    ensures x in Flatten(nodes, n)
    decreases |nodes| - n
  {
    if x != n {
      var c := ChildToward(parents, x, n);
      assert c in nodes[n].categories;
      var j :| 0 <= j < |nodes[n].categories| && nodes[n].categories[j] == c;
      FlattenHas(nodes, parents, c, x);
      FromHas(nodes, n, 0, j, x);
    }
  }

  predicate Distinct(s: seq<nat>) {
    forall i, j :: 0 <= i < j < |s| ==> s[i] != s[j]
  }

  lemma DistinctAppend(a: seq<nat>, b: seq<nat>)
    requires Distinct(a) && Distinct(b) && (forall x :: x in a ==> x !in b)
    ensures Distinct(a + b)
  {
    forall i, j | 0 <= i < j < |a + b|
      ensures (a + b)[i] != (a + b)[j]
    {
      if i < |a| && j >= |a| {
        assert (a + b)[i] in a && (a + b)[j] == b[j - |a|];
      }
    }
  }

  /** No category is listed twice from `n`. */
  lemma {:induction false} FlattenDistinct(nodes: seq<Category>, parents: seq<nat>, n: nat)
    requires WellFormed(nodes, parents) && n < |nodes|
    ensures Distinct(Flatten(nodes, n))
    decreases |nodes| - n, 1
  {
    FromDistinct(nodes, parents, n, 0);
    DistinctAppend([n], FlattenFrom(nodes, n, 0));
  }

  lemma {:induction false} FromDistinct(nodes: seq<Category>, parents: seq<nat>, p: nat, i: nat)
    requires WellFormed(nodes, parents) && p < |nodes| && i <= |nodes[p].categories|
    ensures Distinct(FlattenFrom(nodes, p, i))
    decreases |nodes| - p, 0, |nodes[p].categories| - i
  {
    if i < |nodes[p].categories| {
      var c := nodes[p].categories[i];
      FlattenDistinct(nodes, parents, c);
      FromDistinct(nodes, parents, p, i + 1);
      forall x | x in Flatten(nodes, c)
        ensures x !in FlattenFrom(nodes, p, i + 1)
      {
        if x in FlattenFrom(nodes, p, i + 1) {
          var j := FromWitness(nodes, p, i + 1, x);
          var d := nodes[p].categories[j];
          FlattenBelow(nodes, parents, c, x);
          FlattenBelow(nodes, parents, d, x);
          BelowSiblings(parents, x, c, d);
          assert false;
        }
      }
      DistinctAppend(Flatten(nodes, c), FlattenFrom(nodes, p, i + 1));
    }
  }

  /** Every category lies below the root. */
  lemma {:induction false} BelowRoot(parents: seq<nat>, x: nat)
    requires ParentsBelow(parents) && x < |parents|
    ensures Below(parents, x, 0)
    decreases x
  {
    if x != 0 {
      BelowRoot(parents, parents[x]);
    }
  }

  /** `Flatten(root)` lists every category of the tree exactly once, each
      before everything below it. */
  lemma FlattenRoot(nodes: seq<Category>, parents: seq<nat>)
    requires WellFormed(nodes, parents)
    ensures forall x: nat :: x in Flatten(nodes, 0) <==> x < |nodes|
    ensures Distinct(Flatten(nodes, 0))
  {
    FlattenDistinct(nodes, parents, 0);
    forall x: nat | x < |nodes|
      ensures x in Flatten(nodes, 0)
    {
      BelowRoot(parents, x);
      FlattenHas(nodes, parents, 0, x);
    }
  }

  /** The listing of the `j`-th child sits inside the listing from the `i`-th. */
  lemma {:induction false} FromSegment(nodes: seq<Category>, p: nat, i: nat, j: nat) returns (o: nat)
    requires Forward(nodes) && p < |nodes| && i <= j < |nodes[p].categories|
    ensures var inner := Flatten(nodes, nodes[p].categories[j]);
            o + |inner| <= |FlattenFrom(nodes, p, i)| && FlattenFrom(nodes, p, i)[o..o + |inner|] == inner
    decreases j - i
  {
    var head := Flatten(nodes, nodes[p].categories[i]);
    var rest := FlattenFrom(nodes, p, i + 1);
    if i == j {
      o := 0;
      assert (head + rest)[..|head|] == head;
    } else {
      var o' := FromSegment(nodes, p, i + 1, j);
      o := |head| + o';
      var inner := Flatten(nodes, nodes[p].categories[j]);
      assert (head + rest)[o..o + |inner|] == rest[o'..o' + |inner|];
    }
  }

  lemma SegmentTrans(a: seq<nat>, b: seq<nat>, c: seq<nat>, i: nat, o: nat)
    requires i + |b| <= |a| && a[i..i + |b|] == b
    requires o + |c| <= |b| && b[o..o + |c|] == c
    ensures i + o + |c| <= |a| && a[i + o..i + o + |c|] == c
  {
    forall k | 0 <= k < |c|
      ensures a[i + o..i + o + |c|][k] == c[k]
    {
      assert a[i + o + k] == a[i..i + |b|][o + k] == b[o..o + |c|][k];
    }
  }

  /** The listing of a child is one block of its parent's listing. */
  lemma ChildSegment(nodes: seq<Category>, parents: seq<nat>, n: nat) returns (o: nat)
    requires WellFormed(nodes, parents) && 0 < n < |nodes|
    ensures parents[n] < |nodes|
    ensures o + |Flatten(nodes, n)| <= |Flatten(nodes, parents[n])|
    ensures Flatten(nodes, parents[n])[o..o + |Flatten(nodes, n)|] == Flatten(nodes, n)
  {
    var p := parents[n];
    assert n in nodes[p].categories;
    var j :| 0 <= j < |nodes[p].categories| && nodes[p].categories[j] == n;
    var o' := FromSegment(nodes, p, 0, j);
    var inner := Flatten(nodes, n);
    var from := FlattenFrom(nodes, p, 0);
    assert from[o'..o' + |inner|] == inner;
    o := 1 + o';
    assert Flatten(nodes, p) == [p] + from;
    DropHead(p, from, o', o' + |inner|);
  }

  lemma DropHead(x: nat, s: seq<nat>, a: nat, b: nat)
    requires a <= b <= |s|
    ensures ([x] + s)[a + 1..b + 1] == s[a..b]
  {
    forall k | 0 <= k < b - a
      ensures ([x] + s)[a + 1..b + 1][k] == s[a..b][k]
    {
      assert ([x] + s)[a + 1 + k] == s[a + k];
    }
  }

  /** The listing from any category is one contiguous block of the listing
      from the root: a category is followed at once by everything below it. */
  lemma {:induction false} PreOrder(nodes: seq<Category>, parents: seq<nat>, n: nat) returns (i: nat)
    requires WellFormed(nodes, parents) && n < |nodes|
    ensures i + |Flatten(nodes, n)| <= |Flatten(nodes, 0)|
    ensures Flatten(nodes, 0)[i..i + |Flatten(nodes, n)|] == Flatten(nodes, n)
    decreases n
  {
    if n == 0 {
      i := 0;
      assert Flatten(nodes, 0)[..|Flatten(nodes, 0)|] == Flatten(nodes, 0);
    } else {
      var ip := PreOrder(nodes, parents, parents[n]);
      var o := ChildSegment(nodes, parents, n);
      SegmentTrans(Flatten(nodes, 0), Flatten(nodes, parents[n]), Flatten(nodes, n), ip, o);
      i := ip + o;
    }
  }

  /** `Flatten(root)` lists a category before every category below it. */
  lemma AncestorFirst(nodes: seq<Category>, parents: seq<nat>, n: nat, x: nat)
    requires WellFormed(nodes, parents) && x < |nodes| && ParentsBelow(parents)
    requires Below(parents, x, n) && x != n
    ensures forall a, b ::
              (0 <= a < |Flatten(nodes, 0)| && 0 <= b < |Flatten(nodes, 0)| &&
               Flatten(nodes, 0)[a] == n && Flatten(nodes, 0)[b] == x) ==> a < b
  {
    BelowBound(parents, x, n);
    var root := Flatten(nodes, 0);
    var sub := Flatten(nodes, n);
    var i := PreOrder(nodes, parents, n);
    FlattenHas(nodes, parents, n, x);
    var k :| 0 <= k < |sub| && sub[k] == x;
    assert root[i] == sub[0] == n;
    assert root[i + k] == sub[k];
    FlattenDistinct(nodes, parents, 0);
  }

  /** The loop of `Get`: the segments are followed from the root, and each
      one missing under the category reached so far is created there. */
  method Descend(nodes: seq<Category>, ghost parents: seq<nat>, parts: seq<string>)
      returns (tree: seq<Category>, ghost above: seq<nat>, r: nat)
    requires WellFormed(nodes, parents)
    ensures Descent(nodes, tree, above, parts, |parts|, r)
    ensures Walk(tree, parts) == Some(r)
    ensures forall k :: |nodes| <= k < |tree| ==> OnWalk(tree, parts, |parts|, k)
  {
    tree, above, r := nodes, parents, 0;
    var i := 0;
    while i < |parts|
      invariant Descent(nodes, tree, above, parts, i, r)
    {
      var part := parts[i];
      DescentStep(nodes, tree, above, parts, i, r);
      if part !in tree[r].children {
        tree, above := WithChild(tree, r, part), above + [r];
      }
      r := tree[r].children[part];
      i := i + 1;
    }
    assert parts[..i] == parts;
  }

  class CategoryTree {
    /** The categories created so far, the root first. */
    var nodes: seq<Category>
    /** The `Settings` of each category, at the category's position. */
    var filed: seq<seq<Setting>>
    ghost var parents: seq<nat>

    ghost predicate Valid()
      reads this
    {
      WellFormed(nodes, parents) && |filed| == |nodes|
    }

    /** `new Category()`: the unnamed root, with no settings. */
    constructor ()
      ensures Valid() && nodes == [Category(None, map[], [])] && filed == [[]]
    {
      nodes := [Category(None, map[], [])];
      filed := [[]];
      parents := [0];
    }

    /** `Get(name)`: the category the dotted path names, created with its
        missing ancestors when absent; the root for no path. */
    method Get(path: Option<string>) returns (r: nat)
      requires Valid()
      modifies this
      ensures Valid() && Grows(old(nodes), nodes) && SettingsKept(old(filed), filed)
      ensures Lookup(nodes, path) == Some(r) && nodes[r].name == path
      ensures CreatedOnPath(old(nodes), nodes, path)
      ensures Lookup(old(nodes), path).Some? ==> nodes == old(nodes) && filed == old(filed)
    {
      r := 0;
      if path.None? {
        return;
      }
      var parts := Split(path.value);
      var tree;
      ghost var above;
      tree, above, r := Descend(nodes, parents, parts);
      WalkName(tree, above, parts);
      JoinSplit(path.value);
      nodes, parents, filed := tree, above, Padded(filed, |tree|);
    }

    /** `Add(setting)`: the setting is appended to the category its path
        names, created if need be. */
    method Add(s: Setting)
      requires Valid()
      modifies this
      ensures Valid() && Added(old(nodes), old(filed), nodes, filed, s)
    {
      var c := Get(s.category);
      filed := filed[c := filed[c] + [s]];
    }

    /** `AddRange(settings)`: every setting, in input order, is appended to
        the category its path names. */
    method AddRange(settings: seq<Setting>)
      requires Valid()
      modifies this
      ensures Valid() && Grows(old(nodes), nodes)
      ensures AllFound(nodes, settings, |settings|)
      ensures CreatedForSome(old(nodes), nodes, settings, |settings|)
      ensures forall k {:trigger Filed(old(filed), nodes, settings, |settings|, k)} :: 0 <= k < |nodes| ==> filed[k] == Filed(old(filed), nodes, settings, |settings|, k)
    {
      var i := 0;
      while i < |settings|
        invariant Filing(old(nodes), old(filed), nodes, parents, filed, settings, i)
      {
        ghost var n0, p0, f0 := nodes, parents, filed;
        Add(settings[i]);
        FilingStep(old(nodes), old(filed), n0, p0, f0, nodes, parents, filed, settings, i);
        i := i + 1;
      }
    }
  }
}
