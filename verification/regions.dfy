/** Region post-processing of RegionGenerator.cs: the names read from the
    region and location files, the hoisting of locations that several regions
    list into regions of their own, the order in which the region file lists
    regions, exits, locations and events, and the two literal shortcuts of the
    logic writer. Reading YAML and CSV over HTTP is not modelled: the parsed
    documents are the inputs. */
module Regions {
  import opened Faults
  import opened Strings
  import Ast
  import Tokens
  import Printer
  import PrinterFacts
  import Macros
  import Stubs

  // ---------------------------------------------------------------------------
  // Names read from the region files.

  /** `ReadDictionary`'s name fix: one leading `OOT ` is removed, or else one
      leading `MM `. */
  function StripGame(name: string): (r: string)
    ensures name == r || name == "OOT " + r || name == "MM " + r
    ensures StartsWith(name, "OOT ") || StartsWith(name, "MM ") <==> r != name
  {
    if StartsWith(name, "OOT ") then name[4..]
    else if StartsWith(name, "MM ") then name[3..]
    else name
  }

  /** A tag is removed exactly, and only once: whatever follows it is kept,
      even when it is itself tagged. */
  lemma StripOnce(tag: string, rest: string)
    requires tag == "OOT " || tag == "MM "
    ensures StripGame(tag + rest) == rest
  {
    var name := tag + rest;
    if tag == "MM " {
      assert name[0] == 'M';
      assert !StartsWith(name, "OOT ");
    }
    assert name[|tag|..] == rest;
  }

  /** `OOT ` is tried first: `OOT MM x` loses `OOT ` and keeps `MM `, and
      `MM OOT x` loses `MM ` and keeps `OOT `. */
  lemma StripOrder(rest: string)
    ensures StripGame("OOT " + ("MM " + rest)) == "MM " + rest
    ensures StripGame("MM " + ("OOT " + rest)) == "OOT " + rest
  {
    StripOnce("OOT ", "MM " + rest);
    StripOnce("MM ", "OOT " + rest);
  }

  // ---------------------------------------------------------------------------
  // Dictionaries built entry by entry.

  /** No key occurs twice among the entries. */
  predicate DistinctKeys<V>(entries: seq<(string, V)>) {
    forall i, j :: 0 <= i < j < |entries| ==> entries[i].0 != entries[j].0
  }

  /** `m` holds exactly the entries, each key with its own value. */
  predicate Holds<V(==)>(m: map<string, V>, entries: seq<(string, V)>) {
    m.Keys == (set i | 0 <= i < |entries| :: entries[i].0)
    && forall i :: 0 <= i < |entries| ==> m[entries[i].0] == entries[i].1
  }

  /** A dictionary filled with `Add`, which throws on a key it already holds. */
  method BuildMap<V(==)>(entries: seq<(string, V)>) returns (r: Result<map<string, V>>)
    ensures r.Ok? <==> DistinctKeys(entries)
    ensures r.Ok? ==> Holds(r.value, entries)
    ensures r.Err? ==> r.fault.InvalidArgument?
  {
    var m: map<string, V> := map[];
    var i := 0;
    while i < |entries|
      invariant 0 <= i <= |entries|
      invariant DistinctKeys(entries[..i])
      invariant Holds(m, entries[..i])
    {
      var (key, value) := entries[i];
      if key in m {
        var j :| 0 <= j < i && entries[..i][j].0 == key;
        assert entries[j].0 == entries[i].0;
        return Err(InvalidArgument("an item with the same key has already been added: " + key));
      }
      assert entries[..i + 1] == entries[..i] + [entries[i]];
      m := m[key := value];
      i := i + 1;
    }
    assert entries[..i] == entries;
    return Ok(m);
  }

  /** The entries of a section with their names fixed. */
  function Stripped(pairs: seq<(string, string)>): (r: seq<(string, string)>)
    ensures |r| == |pairs|
    ensures forall i :: 0 <= i < |pairs| ==> r[i] == (StripGame(pairs[i].0), pairs[i].1)
  {
    seq(|pairs|, i requires 0 <= i < |pairs| => (StripGame(pairs[i].0), pairs[i].1))
  }

  /** `ReadDictionary`: the `exits`, `locations` or `events` section of a
      region; an absent section reads as empty, and two names that are equal
      once their tags are removed fail. */
  method ReadSection(section: Option<seq<(string, string)>>) returns (r: Result<map<string, string>>)
    ensures section.None? ==> r == Ok(map[])
    ensures section.Some? ==> (r.Ok? <==> DistinctKeys(Stripped(section.value)))
    ensures section.Some? && r.Ok? ==> Holds(r.value, Stripped(section.value))
  {
    if section.None? {
      return Ok(map[]);
    }
    r := BuildMap(Stripped(section.value));
  }

  // ---------------------------------------------------------------------------
  // The location table.

  /** A row of the location table: display name, type and vanilla item. */
  datatype Location = Location(name: string, kind: string, item: string)

  /** The vanilla items replaced when the table is read. */
  const Overrides: map<string, string> :=
    map["MM_ARROWS_20" := "MM_ARROWS_30", "MM_ARROWS_30" := "MM_ARROWS_40"]

  /** The vanilla item of a row: the override, looked up once, then the token
      map, looked up once, each keeping the item when it has no entry. */
  function VanillaItem(item: string, tokenMap: map<string, string>): (r: string)
    ensures item !in Overrides && item !in tokenMap ==> r == item
  {
    Tokens.Lookup(tokenMap, Tokens.Lookup(Overrides, item))
  }

  /** Overrides are not chained: `MM_ARROWS_20` becomes `MM_ARROWS_30`,
      although that is itself overridden, and the token map sees the result. */
  lemma OverrideOnce(tokenMap: map<string, string>)
    ensures VanillaItem("MM_ARROWS_20", tokenMap) == Tokens.Lookup(tokenMap, "MM_ARROWS_30")
    ensures "MM_ARROWS_30" !in tokenMap ==> VanillaItem("MM_ARROWS_20", tokenMap) == "MM_ARROWS_30"
    ensures "MM_ARROWS_30" in Overrides
  {
    assert Tokens.Lookup(Overrides, "MM_ARROWS_20") == "MM_ARROWS_30";
  }

  /** The number of digits `s` ends with. */
  function TrailingDigits(s: string): (n: nat)
    ensures n <= |s|
    ensures forall k :: |s| - n <= k < |s| ==> IsDigit(s[k])
    ensures n < |s| ==> !IsDigit(s[|s| - n - 1])
    decreases |s|
  {
    if s != [] && IsDigit(s[|s| - 1]) then 1 + TrailingDigits(s[..|s| - 1]) else 0
  }

  /** The number of white-space characters `s` ends with. */
  function TrailingSpaces(s: string): (n: nat)
    ensures n <= |s|
    ensures forall k :: |s| - n <= k < |s| ==> IsWhiteSpace(s[k])
    ensures n < |s| ==> !IsWhiteSpace(s[|s| - n - 1])
    decreases |s|
  {
    if s != [] && IsWhiteSpace(s[|s| - 1]) then 1 + TrailingSpaces(s[..|s| - 1]) else 0
  }

  /** `t` is white space followed by digits, at least one of each: a whole
      match of the numbered-suffix pattern. */
  predicate IsNumbered(t: string) {
    var d := TrailingDigits(t);
    0 < d < |t| && forall k :: 0 <= k < |t| - d ==> IsWhiteSpace(t[k])
  }

  /** Digits and white space are disjoint, so a suffix that starts before the
      trailing digits counts exactly those digits. */
  lemma {:induction false} TrailingDigitsOfSuffix(s: string, k: nat)
    requires k <= |s| - TrailingDigits(s)
    ensures TrailingDigits(s[k..]) == TrailingDigits(s)
    decreases |s|
  {
    if s != [] && IsDigit(s[|s| - 1]) {
      var p := s[..|s| - 1];
      assert s[k..][..|s[k..]| - 1] == p[k..];
      TrailingDigitsOfSuffix(p, k);
    } else if k < |s| {
      assert s[k..][|s[k..]| - 1] == s[|s| - 1];
    }
  }

  /** `NumberedSuffixPattern.Replace(name, "")`: the leftmost match of white
      space then digits at the end of the name is removed. */
  function DropNumber(name: string): (r: string)
    ensures |r| <= |name| && r == name[..|r|]
    ensures r != name ==> IsNumbered(name[|r|..]) && (r == [] || !IsWhiteSpace(r[|r| - 1]))
    ensures r == name ==> forall k :: 0 <= k < |name| ==> !IsNumbered(name[k..])
  {
    var d := TrailingDigits(name);
    var w := TrailingSpaces(name[..|name| - d]);
    if 0 < d && 0 < w then
      NumberedCut(name, d, w);
      name[..|name| - d - w]
    else
      NotNumbered(name, d, w);
      name
  }

  /** White space then digits at the end: cutting them leaves a name that
      does not end in white space. */
  lemma NumberedCut(name: string, d: nat, w: nat)
    requires d == TrailingDigits(name) && w == TrailingSpaces(name[..|name| - d])
    requires 0 < d && 0 < w
    ensures var r := name[..|name| - d - w];
            IsNumbered(name[|r|..]) && (r == [] || !IsWhiteSpace(r[|r| - 1]))
  {
    var r := name[..|name| - d - w];
    var head := name[..|name| - d];
    var t := name[|r|..];
    assert TrailingDigits(t) == d by { TrailingDigitsOfSuffix(name, |r|); }
    forall k | 0 <= k < |t| - d ensures IsWhiteSpace(t[k]) {
      assert t[k] == head[|r| + k];
    }
    assert r == head[..|name| - d - w];
  }

  /** Without digits at the end, or without white space before them, no
      suffix of the name matches. */
  lemma NotNumbered(name: string, d: nat, w: nat)
    requires d == TrailingDigits(name) && w == TrailingSpaces(name[..|name| - d])
    requires !(0 < d && 0 < w)
    ensures forall k :: 0 <= k < |name| ==> !IsNumbered(name[k..])
  {
    forall k | 0 <= k < |name| ensures !IsNumbered(name[k..]) {
      if k <= |name| - d {
        TrailingDigitsOfSuffix(name, k);
        if 0 < d && k < |name| - d {
          assert name[k..][|name| - d - 1 - k] == name[|name| - d - 1];
        }
      } else {
        assert TrailingDigits(name[k..]) == |name| - k by {
          AllDigits(name[k..]);
        }
      }
    }
  }

  lemma {:induction false} AllDigits(s: string)
    requires forall k :: 0 <= k < |s| ==> IsDigit(s[k])
    ensures TrailingDigits(s) == |s|
    decreases |s|
  {
    if s != [] {
      AllDigits(s[..|s| - 1]);
    }
  }

  /** The names of the other game's table, with their numbers removed. */
  function Pool(others: seq<string>): (pool: set<string>)
    ensures forall n :: n in others ==> DropNumber(n) in pool
    ensures forall p :: p in pool ==> exists n :: n in others && DropNumber(n) == p
  {
    set n | n in others :: DropNumber(n)
  }

  /** `FixName`: a location whose unnumbered name the other game also uses is
      shown with the game label in front. */
  function FixName(name: string, game: string, pool: set<string>): (r: string)
    ensures DropNumber(name) in pool ==> r == game + " " + name
    ensures DropNumber(name) !in pool ==> r == name
  {
    if DropNumber(name) in pool then game + " " + name else name
  }

  /** Two numbered locations of one kind are both prefixed as soon as the other
      game has one location of that kind, whatever its number. */
  lemma SharedNamesPrefixed(name: string, other: string, others: seq<string>, game: string)
    requires other in others && DropNumber(other) == DropNumber(name)
    ensures FixName(name, game, Pool(others)) == game + " " + name
  {
  }

  /** One row of the location CSV file: its key, display name, type and item. */
  function LocationRow(key: string, kind: string, item: string, game: string,
                       pool: set<string>, tokenMap: map<string, string>): (row: (string, Location))
    ensures row.0 == key
  {
    (key, Location(FixName(key, game, pool), kind, VanillaItem(item, tokenMap)))
  }

  function Rows(records: seq<(string, string, string)>, game: string, pool: set<string>,
                tokenMap: map<string, string>): (rows: seq<(string, Location)>)
    ensures |rows| == |records|
    ensures forall i :: 0 <= i < |records| ==>
              rows[i] == LocationRow(records[i].0, records[i].1, records[i].2, game, pool, tokenMap)
  {
    seq(|records|, i requires 0 <= i < |records| =>
          LocationRow(records[i].0, records[i].1, records[i].2, game, pool, tokenMap))
  }

  /** `LoadLocationsAsync` after reading: the table keyed by location, which
      fails on a location listed twice. */
  method LoadTable(records: seq<(string, string, string)>, game: string, others: seq<string>,
                   tokenMap: map<string, string>) returns (r: Result<map<string, Location>>)
    ensures r.Ok? <==> DistinctKeys(Rows(records, game, Pool(others), tokenMap))
    ensures r.Ok? ==> forall i :: 0 <= i < |records| ==>
              records[i].0 in r.value
              && r.value[records[i].0]
                 == Location(FixName(records[i].0, game, Pool(others)), records[i].1,
                             VanillaItem(records[i].2, tokenMap))
    ensures r.Ok? ==> forall key :: key in r.value ==> exists i :: 0 <= i < |records| && records[i].0 == key
  {
    var pool := Pool(others);
    var rows := Rows(records, game, pool, tokenMap);
    r := BuildMap(rows);
    if r.Ok? {
      forall i | 0 <= i < |records|
        ensures records[i].0 in r.value
        ensures r.value[records[i].0]
                == Location(FixName(records[i].0, game, pool), records[i].1, VanillaItem(records[i].2, tokenMap))
      {
        assert rows[i] == LocationRow(records[i].0, records[i].1, records[i].2, game, pool, tokenMap);
        assert rows[i].0 in (set j | 0 <= j < |rows| :: rows[j].0);
      }
      forall key | key in r.value ensures exists i :: 0 <= i < |records| && records[i].0 == key {
        assert key in (set j | 0 <= j < |rows| :: rows[j].0);
        var i :| 0 <= i < |rows| && rows[i].0 == key;
        assert rows[i] == LocationRow(records[i].0, records[i].1, records[i].2, game, pool, tokenMap);
      }
    }
  }

  // ---------------------------------------------------------------------------
  // Regions, and the hoisting of locations several regions list.

  /** A region: its exits and its locations, each to the logic that reaches
      it, and its events, each to the logic that triggers it. */
  datatype Region = Region(exits: map<string, string>, locations: map<string, string>,
                           events: map<string, string>)

  /** The regions among `done` that list `loc`. */
  function ListingIn(regions: map<string, Region>, done: set<string>, loc: string): set<string> {
    set n | n in done && n in regions && loc in regions[n].locations
  }

  /** The regions that list `loc`. */
  function Listing(regions: map<string, Region>, loc: string): set<string> {
    ListingIn(regions, regions.Keys, loc)
  }

  /** Every location a region lists is a key of the location table. */
  predicate Covered(table: set<string>, regions: map<string, Region>) {
    forall n :: n in regions ==> regions[n].locations.Keys <= table
  }

  /** The locations of the table that at least two regions list. */
  function Shared(table: set<string>, regions: map<string, Region>): set<string> {
    set l | l in table && |Listing(regions, l)| > 1
  }

  lemma ListingStep(regions: map<string, Region>, done: set<string>, x: string, loc: string)
    requires x in regions && x !in done
    ensures |ListingIn(regions, done + {x}, loc)|
            == |ListingIn(regions, done, loc)| + (if loc in regions[x].locations then 1 else 0)
  {
    if loc in regions[x].locations {
      assert ListingIn(regions, done + {x}, loc) == ListingIn(regions, done, loc) + {x};
    } else {
      assert ListingIn(regions, done + {x}, loc) == ListingIn(regions, done, loc);
    }
  }

  /** The counting loop of `GenerateAsync`: a counter per location of the
      table, raised once for each region that lists it; a location the table
      lacks fails the increment. */
  method CountUses(table: set<string>, regions: map<string, Region>) returns (r: Result<map<string, nat>>)
    ensures r.Ok? <==> Covered(table, regions)
    ensures r.Err? ==> r.fault.KeyNotFound? && r.fault.key !in table
                       && exists n :: n in regions && r.fault.key in regions[n].locations
    ensures r.Ok? ==> r.value.Keys == table
                      && forall l :: l in table ==> r.value[l] == |Listing(regions, l)|
  {
    var counts: map<string, nat> := map l | l in table :: 0;
    var todo := regions.Keys;
    while todo != {}
      invariant todo <= regions.Keys
      invariant counts.Keys == table
      invariant forall n :: n in regions.Keys - todo ==> regions[n].locations.Keys <= table
      invariant forall l :: l in table ==> counts[l] == |ListingIn(regions, regions.Keys - todo, l)|
      decreases |todo|
    {
      var x :| x in todo;
      var next := CountRegion(counts, regions[x].locations.Keys);
      if next.Err? {
        assert x in regions && next.fault.key in regions[x].locations;
        assert !Covered(table, regions);
        return Err(next.fault);
      }
      CountStep(regions, todo, x, table, counts, next.value);
      counts := next.value;
      todo := todo - {x};
    }
    assert regions.Keys - todo == regions.Keys;
    return Ok(counts);
  }

  /** One region counted: the counters now count it too. */
  lemma CountStep(regions: map<string, Region>, todo: set<string>, x: string, table: set<string>,
                  counts: map<string, nat>, next: map<string, nat>)
    requires x in todo && todo <= regions.Keys
    requires counts.Keys == table == next.Keys
    requires forall l :: l in table ==> counts[l] == |ListingIn(regions, regions.Keys - todo, l)|
    requires forall l :: l in counts ==> next[l] == counts[l] + (if l in regions[x].locations.Keys then 1 else 0)
    ensures forall l :: l in table ==> next[l] == |ListingIn(regions, regions.Keys - (todo - {x}), l)|
  {
    var done := regions.Keys - todo;
    assert regions.Keys - (todo - {x}) == done + {x};
    forall l | l in table
      ensures next[l] == |ListingIn(regions, done + {x}, l)|
    {
      ListingStep(regions, done, x, l);
    }
  }

  /** The counters after one region: each location it lists counted once
      more; a location without a counter throws. */
  method CountRegion(counts: map<string, nat>, keys: set<string>) returns (r: Result<map<string, nat>>)
    ensures r.Ok? <==> keys <= counts.Keys
    ensures r.Err? ==> r.fault.KeyNotFound? && r.fault.key in keys && r.fault.key !in counts
    ensures r.Ok? ==> r.value.Keys == counts.Keys
                      && forall l :: l in counts ==> r.value[l] == counts[l] + (if l in keys then 1 else 0)
  {
    var acc := counts;
    var todo := keys;
    while todo != {}
      invariant todo <= keys
      invariant keys - todo <= counts.Keys
      invariant acc.Keys == counts.Keys
      invariant forall l :: l in counts ==> acc[l] == counts[l] + (if l in keys - todo then 1 else 0)
      decreases |todo|
    {
      var l :| l in todo;
      if l !in acc {
        return Err(KeyNotFound(l));
      }
      acc := acc[l := acc[l] + 1];
      todo := todo - {l};
    }
    return Ok(acc);
  }

  /** A location moved out of a region's locations into its exits, with its
      logic; a region that does not list it is left as it is. */
  function Move(r: Region, loc: string): Region {
    if loc in r.locations then Region(r.exits[loc := r.locations[loc]], r.locations - {loc}, r.events)
    else r
  }

  /** The region made for a hoisted location: no exits, no events, and the
      location itself, always reachable. */
  function Own(loc: string): Region {
    Region(map[], map[loc := "true"], map[])
  }

  /** Hoisting `loc` throws: a region of that name exists (`regions.Add`), or
      a region that lists it already has an exit of that name (`Exits.Add`). */
  predicate StepClash(cur: map<string, Region>, loc: string) {
    loc in cur || exists n :: n in cur && loc in cur[n].locations && loc in cur[n].exits
  }

  /** One pass of the hoisting loop, when it does not throw. */
  function Step(cur: map<string, Region>, loc: string): map<string, Region> {
    (map n | n in cur :: Move(cur[n], loc))[loc := Own(loc)]
  }

  /** A region after all of `hoisted` has left its locations for its exits. */
  function Lift(r: Region, hoisted: set<string>): Region {
    Region(r.exits + (r.locations - (r.locations.Keys - hoisted)), r.locations - hoisted, r.events)
  }

  /** Some location of `hoisted` cannot be hoisted. */
  predicate Clash(regions: map<string, Region>, hoisted: set<string>) {
    exists l :: l in hoisted && StepClash(regions, l)
  }

  /** The regions after hoisting every location of `hoisted`, in any order. */
  function Hoisted(regions: map<string, Region>, hoisted: set<string>): map<string, Region>
  {
    (map n | n in regions :: Lift(regions[n], hoisted)) + (map l | l in hoisted :: Own(l))
  }

  /** Hoisting nothing changes nothing. */
  lemma HoistedNone(regions: map<string, Region>)
    ensures Hoisted(regions, {}) == regions
  {
    forall n | n in regions ensures Lift(regions[n], {}) == regions[n] {
      var r := regions[n];
      assert r.locations - (r.locations.Keys - {}) == map[];
      assert r.locations - {} == r.locations;
    }
  }

  /** Moving one more location out of a lifted region lifts it by one more. */
  lemma MoveLift(r: Region, hoisted: set<string>, loc: string)
    requires loc !in hoisted
    requires !(loc in r.locations && loc in r.exits)
    ensures Move(Lift(r, hoisted), loc) == Lift(r, hoisted + {loc})
  {
    var lifted := Lift(r, hoisted);
    var next := Lift(r, hoisted + {loc});
    if loc in r.locations {
      assert loc in lifted.locations;
      LiftExitsStep(r, hoisted, loc);
      LiftLocationsStep(r, hoisted, loc);
    } else {
      assert lifted.exits == next.exits;
      assert lifted.locations == next.locations;
    }
  }

  lemma LiftExitsStep(r: Region, hoisted: set<string>, loc: string)
    requires loc !in hoisted && loc in r.locations
    ensures Lift(r, hoisted).exits[loc := r.locations[loc]] == Lift(r, hoisted + {loc}).exits
  {
  }

  lemma LiftLocationsStep(r: Region, hoisted: set<string>, loc: string)
    requires loc !in hoisted && loc in r.locations
    ensures Lift(r, hoisted).locations - {loc} == Lift(r, hoisted + {loc}).locations
  {
  }

  /** Hoisting one more location fails exactly when it fails on the regions
      as they were read: earlier passes neither add nor remove a clash. */
  lemma HoistClash(regions: map<string, Region>, hoisted: set<string>, loc: string)
    requires !Clash(regions, hoisted) && loc !in hoisted
    ensures StepClash(Hoisted(regions, hoisted), loc) <==> StepClash(regions, loc)
  {
    var cur := Hoisted(regions, hoisted);
    if StepClash(cur, loc) && loc !in cur {
      var n :| n in cur && loc in cur[n].locations && loc in cur[n].exits;
      if n !in hoisted {
        assert cur[n] == Lift(regions[n], hoisted);
        assert loc in regions[n].locations && loc in regions[n].exits;
      }
    }
    if StepClash(regions, loc) && loc !in regions {
      var n :| n in regions && loc in regions[n].locations && loc in regions[n].exits;
      assert n !in hoisted;
      assert cur[n] == Lift(regions[n], hoisted);
      assert loc in cur[n].locations;
    }
  }

  /** When it does not fail, one more pass of the loop is hoisting one more
      location. */
  lemma HoistAgrees(regions: map<string, Region>, hoisted: set<string>, loc: string)
    requires !Clash(regions, hoisted) && loc !in hoisted && !StepClash(regions, loc)
    ensures !Clash(regions, hoisted + {loc})
    ensures Step(Hoisted(regions, hoisted), loc) == Hoisted(regions, hoisted + {loc})
  {
    var a := Step(Hoisted(regions, hoisted), loc);
    var b := Hoisted(regions, hoisted + {loc});
    assert a.Keys == b.Keys;
    forall n | n in a ensures a[n] == b[n] {
      HoistAgreesAt(regions, hoisted, loc, n);
    }
  }

  lemma HoistAgreesAt(regions: map<string, Region>, hoisted: set<string>, loc: string, n: string)
    requires !Clash(regions, hoisted) && loc !in hoisted && !StepClash(regions, loc)
    requires n in regions || n in hoisted || n == loc
    ensures Step(Hoisted(regions, hoisted), loc)[n] == Hoisted(regions, hoisted + {loc})[n]
  {
    if n != loc && n !in hoisted {
      MoveLift(regions[n], hoisted, loc);
    }
  }

  /** The hoisting loop of `GenerateAsync`: every location counted more than
      once leaves the locations of each region listing it for that region's
      exits, and becomes a region of its own. */
  method Hoist(regions: map<string, Region>, counts: map<string, nat>) returns (r: Result<map<string, Region>>)
    ensures var shared := set l | l in counts && counts[l] > 1;
            (r.Ok? <==> !Clash(regions, shared))
            && (r.Ok? ==> r.value == Hoisted(regions, shared))
            && (r.Err? ==> r.fault.InvalidArgument?)
  {
    var cur := regions;
    var todo := counts.Keys;
    ghost var hoisted: set<string> := {};
    HoistedNone(regions);
    while todo != {}
      invariant todo <= counts.Keys
      invariant forall l :: l in hoisted <==> l in counts && l !in todo && counts[l] > 1
      invariant !Clash(regions, hoisted)
      invariant cur == Hoisted(regions, hoisted)
      decreases |todo|
    {
      var loc :| loc in todo;
      if counts[loc] > 1 {
        HoistClash(regions, hoisted, loc);
        var next;
        next := HoistOne(cur, loc);
        if next.Err? {
          assert Clash(regions, set l | l in counts && counts[l] > 1);
          return Err(next.fault);
        }
        HoistAgrees(regions, hoisted, loc);
        hoisted := hoisted + {loc};
        cur := next.value;
      }
      todo := todo - {loc};
    }
    assert hoisted == set l | l in counts && counts[l] > 1;
    return Ok(cur);
  }

  /** One pass of the hoisting loop, over the regions as they stand. */
  method HoistOne(cur: map<string, Region>, loc: string) returns (r: Result<map<string, Region>>)
    ensures r.Ok? <==> !StepClash(cur, loc)
    ensures r.Ok? ==> r.value == Step(cur, loc)
    ensures r.Err? ==> r.fault.InvalidArgument?
  {
    var acc := cur;
    var todo := cur.Keys;
    while todo != {}
      invariant todo <= cur.Keys
      invariant acc.Keys == cur.Keys
      invariant forall n :: n in acc ==> acc[n] == (if n in todo then cur[n] else Move(cur[n], loc))
      invariant forall n :: n in cur && n !in todo ==> !(loc in cur[n].locations && loc in cur[n].exits)
      decreases |todo|
    {
      var n :| n in todo;
      var region := acc[n];
      if loc in region.locations {
        if loc in region.exits {
          return Err(InvalidArgument("an item with the same key has already been added: " + loc));
        }
        acc := acc[n := Move(region, loc)];
      }
      todo := todo - {n};
    }
    if loc in acc {
      return Err(InvalidArgument("an item with the same key has already been added: " + loc));
    }
    assert acc == map n | n in cur :: Move(cur[n], loc);
    return Ok(acc[loc := Own(loc)]);
  }

  /** The processing of `GenerateAsync` between reading and writing: count
      the regions listing each location, then hoist the shared ones. */
  method PostProcess(table: set<string>, regions: map<string, Region>) returns (r: Result<map<string, Region>>)
    ensures r.Ok? <==> Covered(table, regions) && !Clash(regions, Shared(table, regions))
    ensures r.Ok? ==> r.value == Hoisted(regions, Shared(table, regions))
  {
    var counts :- CountUses(table, regions);
    assert (set l | l in counts && counts[l] > 1) == Shared(table, regions);
    r := Hoist(regions, counts);
  }

  /** Which region a key of the hoisted map holds. */
  lemma HoistedAt(regions: map<string, Region>, hoisted: set<string>, n: string)
    requires !Clash(regions, hoisted)
    ensures n in Hoisted(regions, hoisted) <==> n in regions || n in hoisted
    ensures n in hoisted ==> Hoisted(regions, hoisted)[n] == Own(n)
    ensures n in regions ==> n !in hoisted && Hoisted(regions, hoisted)[n] == Lift(regions[n], hoisted)
  {
    if n in regions && n in hoisted {
      assert StepClash(regions, n);
    }
  }

  /** What hoisting does to one listing: a shared location leaves the
      region's locations for its exits, keeping its logic, and has a region of
      its own; a location listed once stays where it was with its logic; the
      events and the earlier exits of every region are kept. */
  lemma HoistedListing(table: set<string>, regions: map<string, Region>, n: string, loc: string)
    requires Covered(table, regions) && !Clash(regions, Shared(table, regions))
    requires n in regions && loc in regions[n].locations
    ensures var r := Hoisted(regions, Shared(table, regions));
            n in r && r[n].events == regions[n].events && regions[n].exits.Keys <= r[n].exits.Keys
            && if |Listing(regions, loc)| > 1 then
                 loc !in r[n].locations && loc in r[n].exits
                 && r[n].exits[loc] == regions[n].locations[loc]
                 && loc in r && r[loc] == Own(loc)
               else
                 loc in r[n].locations && r[n].locations[loc] == regions[n].locations[loc]
  {
    var shared := Shared(table, regions);
    HoistedAt(regions, shared, n);
    HoistedAt(regions, shared, loc);
    assert loc in table;
  }

  lemma TwoMembers(s: set<string>, a: string, b: string)
    requires a in s && b in s && a != b
    ensures |s| > 1
  {
    var rest := s - {a};
    assert b in rest;
    assert s == rest + {a};
  }

  /** After hoisting no location is listed by two regions. */
  lemma SingleHome(table: set<string>, regions: map<string, Region>, n1: string, n2: string, loc: string)
    requires Covered(table, regions) && !Clash(regions, Shared(table, regions))
    requires var r := Hoisted(regions, Shared(table, regions));
             n1 in r && n2 in r && loc in r[n1].locations && loc in r[n2].locations
    ensures n1 == n2
  {
    var shared := Shared(table, regions);
    HoistedAt(regions, shared, n1);
    HoistedAt(regions, shared, n2);
    if loc !in shared && n1 != n2 {
      assert n1 in Listing(regions, loc) && n2 in Listing(regions, loc);
      TwoMembers(Listing(regions, loc), n1, n2);
    }
  }

  /** Hoisting loses no location: whatever a region listed, some region
      lists afterwards. */
  lemma NothingLost(table: set<string>, regions: map<string, Region>, n: string, loc: string)
    requires Covered(table, regions) && !Clash(regions, Shared(table, regions))
    requires n in regions && loc in regions[n].locations
    ensures exists m :: m in Hoisted(regions, Shared(table, regions))
                        && loc in Hoisted(regions, Shared(table, regions))[m].locations
  {
    HoistedListing(table, regions, n, loc);
    if |Listing(regions, loc)| > 1 {
      assert loc in Own(loc).locations;
    }
  }

  // ---------------------------------------------------------------------------
  // Writing a piece of logic.

  /** The helper of the macro base class a literal logic string is written
      as, if it is one. */
  function Shortcut(logic: string): (r: Option<string>)
    ensures r.Some? <==> logic == "true" || logic == "false"
  {
    if logic == "true" then Some("always")
    else if logic == "false" then Some("never")
    else None
  }

  /** The context the body of a logic lambda is printed in: receiver `s`,
      which is also the lambda's one parameter. */
  function LambdaContext(tokenMap: map<string, string>, game: string, chain: Macros.Chain): Printer.Context {
    Printer.Nested(Printer.Initial(tokenMap, game, "s", chain), ["s"])
  }

  /** `WriteLogicAsync`: `true` and `false` are written as the helpers
      `always` and `never`; any other logic is rewritten with the default
      token map, parsed (`parse` stands for the JavaScript parser) and written
      as a parenthesised lambda over `s`. */
  function WriteLogic(logic: string, parse: string -> Result<Ast.Expr>, tokenMap: map<string, string>,
                      game: string, chain: Macros.Chain, missing: set<string>): (r: Result<Printer.Printed>)
    ensures Shortcut(logic).Some? ==> r == Ok(Printer.Printed(Printer.Str(Shortcut(logic).value), missing))
    ensures Shortcut(logic).None? && parse(Tokens.Rewrite(Tokens.DefaultTokenMap, logic)).Err? ==> r.Err?
    ensures r.Ok? ==> missing <= r.value.missing
  {
    match Shortcut(logic)
    case Some(helper) => Ok(Printer.Printed(Printer.Str(helper), missing))
    case None =>
      var e :- parse(Tokens.Rewrite(Tokens.DefaultTokenMap, logic));
      var lambda :- Printer.PrintTop(Ast.Arrow(["s"], Ast.Concise(e)), tokenMap, game, "s", chain, missing);
      Ok(Printer.Printed(Printer.Str("(") + lambda.doc + Printer.Str(")"), lambda.missing))
  }

  /** Logic other than the two literals is written as `(lambda s: <body>)`,
      the body printed with `s` bound, from the text the default token map
      rewrote. */
  lemma LambdaLogic(logic: string, parse: string -> Result<Ast.Expr>, tokenMap: map<string, string>,
                    game: string, chain: Macros.Chain, missing: set<string>, e: Ast.Expr, body: Printer.Printed)
    requires Shortcut(logic).None?
    requires parse(Tokens.Rewrite(Tokens.DefaultTokenMap, logic)) == Ok(e)
    requires Printer.PrintExpr(e, LambdaContext(tokenMap, game, chain), missing) == Ok(body)
    ensures WriteLogic(logic, parse, tokenMap, game, chain, missing)
            == Ok(Printer.Printed(Printer.Str("(lambda s: ") + body.doc + Printer.Str(")"), body.missing))
  {
    var ctx := Printer.Initial(tokenMap, game, "s", chain);
    assert Printer.FixIdentifier("s") == "s";
    assert Printer.LambdaParams(["s"]) == " s";
    assert "lambda" + Printer.LambdaParams(["s"]) + ": " == "lambda s: ";
    PrinterFacts.ConciseArrow(["s"], e, ctx, missing, body);
    var lambda := Printer.Printed(Printer.Str("lambda s: ") + body.doc, body.missing);
    assert Printer.PrintTop(Ast.Arrow(["s"], Ast.Concise(e)), tokenMap, game, "s", chain, missing) == Ok(lambda);
    LambdaOpening();
    Printer.StrAppend("(", "lambda s: ");
    Associative(Printer.Str("("), Printer.Str("lambda s: "), body.doc);
    assert Printer.Str("(") + lambda.doc == Printer.Str("(lambda s: ") + body.doc;
  }

  lemma LambdaOpening()
    ensures "(" + "lambda s: " == "(lambda s: "
  {
  }

  /** As the helpers are written, logic `false` calls `never`, which returns
      `True`: a region entry whose logic is `false` is always reachable. */
  lemma FalseLogicHoldsAsWritten()
    ensures Shortcut("false") == Some("never")
    ensures Stubs.Invoke(Stubs.HelpersAsWritten, Shortcut("false").value) == Some(true)
  {
    assert Stubs.HelpersAsWritten[1].name == "never";
  }

  /** With `never` returning `False`, each literal logic string evaluates to
      the truth value it spells. */
  lemma LiteralLogicEvaluates(b: bool)
    ensures Shortcut(if b then "true" else "false").Some?
    ensures Stubs.Invoke(Stubs.Helpers, Shortcut(if b then "true" else "false").value) == Some(b)
  {
    assert Stubs.Helpers[0].name == "always" && Stubs.Helpers[1].name == "never";
    assert "always" != "never";
  }

  // ---------------------------------------------------------------------------
  // The region file.

  /** One line of the regions dictionary of the region file. Its text, with
      the logic written as `WriteLogic` writes it, is given by `Text`. */
  datatype Line =
    | Open(region: string)
    | Section(section: string)
    | ExitLine(exit: string, logic: string)
    | LocationLine(name: string, id: nat, kind: string, item: string, logic: string)
    | EventLine(event: string, logic: string)
    | SectionEnd
    | Close

  function Text(game: string, line: Line, written: string): string {
    match line
    case Open(region) => "\"" + region + "\": " + game + "RegionData(\n"
    case Section(section) => section + "={\n"
    case ExitLine(exit, _) => "\"" + exit + "\": " + written + ",\n"
    case LocationLine(name, id, kind, item, _) =>
      "\"" + name + "\": LocationData(" + NatToString(id) + ",\"" + kind + "\",\"" + item + "\"," + written + "),\n"
    case EventLine(event, _) => "\"" + event + "\": " + written + ",\n"
    case SectionEnd => "},\n"
    case Close => "),\n"
  }

  /** The exits of a region, in ascending name order. */
  function ExitLines(exits: map<string, string>): (r: seq<Line>)
    ensures |r| == |Sorted(exits.Keys)| == |exits|
    ensures forall i :: 0 <= i < |r| ==>
              r[i].ExitLine? && r[i].exit == Sorted(exits.Keys)[i] && r[i].exit in exits && r[i].logic == exits[r[i].exit]
  {
    SortedSize(exits.Keys);
    SortedIn(exits.Keys);
    var keys := Sorted(exits.Keys);
    seq(|keys|, i requires 0 <= i < |keys| =>
          SortedAt(exits.Keys, i);
          ExitLine(keys[i], exits[keys[i]]))
  }

  /** The locations of a region, in ascending key order, each under its row
      of the table and numbered on from `first`. */
  function LocationLines(locations: map<string, string>, table: map<string, Location>, first: nat): (r: seq<Line>)
    requires locations.Keys <= table.Keys
    ensures |r| == |Sorted(locations.Keys)| == |locations|
    ensures forall i :: 0 <= i < |r| ==>
              var k := Sorted(locations.Keys)[i];
              k in locations && r[i].LocationLine? && r[i].id == first + i && r[i].logic == locations[k]
              && r[i].name == table[k].name && r[i].kind == table[k].kind && r[i].item == table[k].item
  {
    SortedSize(locations.Keys);
    SortedIn(locations.Keys);
    var keys := Sorted(locations.Keys);
    seq(|keys|, i requires 0 <= i < |keys| =>
          SortedAt(locations.Keys, i);
          LocationLine(table[keys[i]].name, first + i, table[keys[i]].kind, table[keys[i]].item,
                       locations[keys[i]]))
  }

  /** The events of a region, in ascending name order, each under its name
      with the game label in front unless it already names a game. */
  function EventLines(game: string, events: map<string, string>): (r: seq<Line>)
    ensures |r| == |Sorted(events.Keys)| == |events|
    ensures forall i :: 0 <= i < |r| ==>
              var k := Sorted(events.Keys)[i];
              k in events && r[i].EventLine? && r[i].event == Printer.EventName(game, k) && r[i].logic == events[k]
  {
    SortedSize(events.Keys);
    SortedIn(events.Keys);
    var keys := Sorted(events.Keys);
    seq(|keys|, i requires 0 <= i < |keys| =>
          SortedAt(events.Keys, i);
          EventLine(Printer.EventName(game, keys[i]), events[keys[i]]))
  }

  /** A section is written only when it has entries. */
  function Block(section: string, body: seq<Line>): seq<Line> {
    if body == [] then [] else [Section(section)] + body + [SectionEnd]
  }

  /** The lines of one region: its exits, locations and events. */
  function RegionLines(game: string, name: string, region: Region, table: map<string, Location>,
                       first: nat): seq<Line>
    requires region.locations.Keys <= table.Keys
  {
    [Open(name)]
    + Block("exits", ExitLines(region.exits))
    + Block("locations", LocationLines(region.locations, table, first))
    + Block("events", EventLines(game, region.events))
    + [Close]
  }

  /** Every name of the list is a region of the dictionary. */
  predicate Listed(regions: map<string, Region>, names: seq<string>) {
    forall k :: 0 <= k < |names| ==> names[k] in regions
  }

  /** How many locations the named regions list together, from the `i`-th
      name on. */
  function CountOf(regions: map<string, Region>, names: seq<string>, i: nat): nat
    requires Listed(regions, names) && i <= |names|
    decreases |names| - i
  {
    if i == |names| then 0
    else |regions[names[i]].locations| + CountOf(regions, names, i + 1)
  }

  /** How many locations the regions list together. */
  function LocationTotal(regions: map<string, Region>): nat {
    SortedIn(regions.Keys);
    CountOf(regions, Sorted(regions.Keys), 0)
  }

  /** The lines of the named regions from the `i`-th name on, one after the
      other, their locations numbered on from `count`. */
  function LinesOf(game: string, regions: map<string, Region>, table: map<string, Location>,
                   count: nat, names: seq<string>, i: nat): seq<Line>
    requires Covered(table.Keys, regions)
    requires Listed(regions, names) && i <= |names|
    decreases |names| - i
  {
    if i == |names| then []
    else
      RegionLines(game, names[i], regions[names[i]], table, count)
      + LinesOf(game, regions, table, count + |regions[names[i]].locations|, names, i + 1)
  }

  /** The lines of the regions dictionary: its regions in ascending name
      order. */
  function FileLines(game: string, regions: map<string, Region>, table: map<string, Location>,
                     first: nat): seq<Line>
    requires Covered(table.Keys, regions)
  {
    SortedIn(regions.Keys);
    LinesOf(game, regions, table, first, Sorted(regions.Keys), 0)
  }

  /** Writing a section's head, its entries and its end, one after the other,
      writes its block. */
  lemma BlockAppend(lines: seq<Line>, section: string, body: seq<Line>)
    requires body != []
    ensures ((lines + [Section(section)]) + body) + [SectionEnd] == lines + Block(section, body)
  {
    calc {
      ((lines + [Section(section)]) + body) + [SectionEnd];
      { Associative(lines, [Section(section)], body); }
      (lines + ([Section(section)] + body)) + [SectionEnd];
      { Associative(lines, [Section(section)] + body, [SectionEnd]); }
      lines + Block(section, body);
    }
  }

  /** Nothing written for an empty section. */
  lemma BlockEmpty(lines: seq<Line>, section: string)
    ensures lines + Block(section, []) == lines
  {
  }

  // ---------------------------------------------------------------------------
  // What the lines list, in order.

  /** What `pick` sees in the lines, in order. */
  function Project<T>(lines: seq<Line>, pick: Line -> Option<T>): seq<T>
    decreases |lines|
  {
    if lines == [] then []
    else
      var last := pick(lines[|lines| - 1]);
      Project(lines[..|lines| - 1], pick) + (if last.Some? then [last.value] else [])
  }

  /** The number a location line carries. */
  function IdOf(line: Line): Option<nat> {
    if line.LocationLine? then Some(line.id) else None
  }

  /** The region an opening line opens. */
  function RegionOf(line: Line): Option<string> {
    if line.Open? then Some(line.region) else None
  }

  /** `n` consecutive numbers from `first`. */
  function Range(first: nat, n: nat): seq<nat>
    decreases n
  {
    if n == 0 then [] else Range(first, n - 1) + [first + n - 1]
  }

  /** The run holds exactly the numbers `first` to `first + n - 1`, in
      increasing order. */
  lemma {:induction false} RangeFacts(first: nat, n: nat)
    ensures |Range(first, n)| == n
    ensures forall i :: 0 <= i < n ==> Range(first, n)[i] == first + i
    decreases n
  {
    if n > 0 {
      RangeFacts(first, n - 1);
    }
  }

  lemma {:induction false} ProjectAppend<T>(a: seq<Line>, b: seq<Line>, pick: Line -> Option<T>)
    ensures Project(a + b, pick) == Project(a, pick) + Project(b, pick)
    decreases |b|
  {
    if b == [] {
      assert a + b == a;
    } else {
      var init := b[..|b| - 1];
      var last := pick(b[|b| - 1]);
      var tail := if last.Some? then [last.value] else [];
      assert (a + b)[..|a + b| - 1] == a + init;
      assert (a + b)[|a + b| - 1] == b[|b| - 1];
      ProjectAppend(a, init, pick);
      Associative(Project(a, pick), Project(init, pick), tail);
    }
  }

  /** Lines that `pick` ignores add nothing to what it sees. */
  lemma {:induction false} ProjectNone<T>(lines: seq<Line>, pick: Line -> Option<T>)
    requires forall i :: 0 <= i < |lines| ==> pick(lines[i]).None?
    ensures Project(lines, pick) == []
    decreases |lines|
  {
    if lines != [] {
      ProjectNone(lines[..|lines| - 1], pick);
    }
  }

  /** Lines numbered consecutively from `first` carry exactly those numbers. */
  lemma {:induction false} ProjectIds(lines: seq<Line>, first: nat)
    requires forall i :: 0 <= i < |lines| ==> IdOf(lines[i]) == Some(first + i)
    ensures Project(lines, IdOf) == Range(first, |lines|)
    decreases |lines|
  {
    if lines != [] {
      var n := |lines| - 1;
      ProjectIds(lines[..n], first);
      assert Range(first, n + 1) == Range(first, n) + [first + n];
    }
  }

  /** Appending lines `pick` ignores leaves what it sees unchanged. */
  lemma Invisible<T>(lines: seq<Line>, added: seq<Line>, pick: Line -> Option<T>)
    requires forall i :: 0 <= i < |added| ==> pick(added[i]).None?
    ensures Project(lines + added, pick) == Project(lines, pick)
  {
    ProjectAppend(lines, added, pick);
    ProjectNone(added, pick);
  }

  /** Appending one line adds what `pick` sees in it. */
  lemma ProjectOne<T>(lines: seq<Line>, line: Line, pick: Line -> Option<T>)
    ensures Project(lines + [line], pick)
            == Project(lines, pick) + (if pick(line).Some? then [pick(line).value] else [])
  {
    assert (lines + [line])[..|lines|] == lines;
  }

  /** A section carries no number and opens no region of its own beyond what
      its entries do. */
  lemma BlockProject<T>(lines: seq<Line>, section: string, body: seq<Line>, pick: Line -> Option<T>)
    requires pick(Section(section)).None? && pick(SectionEnd).None?
    ensures Project(lines + Block(section, body), pick) == Project(lines, pick) + Project(body, pick)
  {
    if body != [] {
      var head, end := [Section(section)], [SectionEnd];
      ProjectNone(head, pick);
      ProjectNone(end, pick);
      ProjectAppend(head, body, pick);
      ProjectAppend(head + body, end, pick);
      assert Project(head + body, pick) == Project(body, pick);
      assert Project(Block(section, body), pick) == Project(body, pick);
      ProjectAppend(lines, Block(section, body), pick);
    } else {
      assert lines + Block(section, body) == lines;
      assert Project(lines, pick) + Project(body, pick) == Project(lines, pick);
    }
  }

  /** Two runs of numbers, the second starting where the first stops, make
      one run. */
  lemma {:induction false} RangeAppend(first: nat, m: nat, n: nat, total: nat)
    requires total == m + n
    ensures Range(first, m) + Range(first + m, n) == Range(first, total)
    decreases n
  {
    if n == 0 {
      assert Range(first, m) + [] == Range(first, m);
    } else {
      RangeAppend(first, m, n - 1, total - 1);
      assert first + m + n - 1 == first + total - 1;
      Associative(Range(first, m), Range(first + m, n - 1), [first + m + n - 1]);
    }
  }

  /** A region's locations are numbered `first`, `first + 1`, ... in the
      order they are listed. */
  lemma LocationIds(locations: map<string, string>, table: map<string, Location>, first: nat)
    requires locations.Keys <= table.Keys
    ensures Project(LocationLines(locations, table, first), IdOf) == Range(first, |locations|)
  {
    SortedSize(locations.Keys);
    ProjectIds(LocationLines(locations, table, first), first);
  }

  /** The numbers a region's lines carry: its own locations', from `first`. */
  lemma RegionIds(game: string, name: string, region: Region, table: map<string, Location>, first: nat)
    requires region.locations.Keys <= table.Keys
    ensures Project(RegionLines(game, name, region, table, first), IdOf) == Range(first, |region.locations|)
  {
    var open := [Open(name)];
    var exits := ExitLines(region.exits);
    var locations := LocationLines(region.locations, table, first);
    var events := EventLines(game, region.events);
    var upToExits := open + Block("exits", exits);
    var upToLocations := upToExits + Block("locations", locations);
    var upToEvents := upToLocations + Block("events", events);
    ProjectNone(open, IdOf);
    ProjectNone(exits, IdOf);
    BlockProject(open, "exits", exits, IdOf);
    assert Project(upToExits, IdOf) == [];
    BlockProject(upToExits, "locations", locations, IdOf);
    LocationIds(region.locations, table, first);
    assert Project(upToLocations, IdOf) == Range(first, |region.locations|);
    ProjectNone(events, IdOf);
    BlockProject(upToLocations, "events", events, IdOf);
    ProjectOne(upToEvents, Close, IdOf);
  }

  /** The regions a region's lines open: that region alone. */
  lemma RegionOpens(game: string, name: string, region: Region, table: map<string, Location>, first: nat)
    requires region.locations.Keys <= table.Keys
    ensures Project(RegionLines(game, name, region, table, first), RegionOf) == [name]
  {
    var open := [Open(name)];
    var exits := ExitLines(region.exits);
    var locations := LocationLines(region.locations, table, first);
    var events := EventLines(game, region.events);
    var upToExits := open + Block("exits", exits);
    var upToLocations := upToExits + Block("locations", locations);
    var upToEvents := upToLocations + Block("events", events);
    ProjectOne([], Open(name), RegionOf);
    assert [] + open == open;
    var onlyName := [name];
    assert Project(open, RegionOf) == onlyName;
    ProjectNone(exits, RegionOf);
    BlockProject(open, "exits", exits, RegionOf);
    assert Project(upToExits, RegionOf) == onlyName;
    ProjectNone(locations, RegionOf);
    BlockProject(upToExits, "locations", locations, RegionOf);
    assert Project(upToLocations, RegionOf) == onlyName;
    ProjectNone(events, RegionOf);
    BlockProject(upToLocations, "events", events, RegionOf);
    assert Project(upToEvents, RegionOf) == onlyName;
    ProjectOne(upToEvents, Close, RegionOf);
  }

  /** The writer of the regions dictionary: the lines written so far and
      `LocationCount`, the number given to the next location. */
  class RegionWriter {
    var locationCount: nat
    var lines: seq<Line>

    constructor ()
      ensures locationCount == 0 && lines == []
    {
      locationCount := 0;
      lines := [];
    }

    /** The `exits` section of a region. */
    method WriteExits(exits: map<string, string>)
      modifies this
      ensures lines == old(lines) + Block("exits", ExitLines(exits))
      ensures locationCount == old(locationCount)
    {
      var keys := Sorted(exits.Keys);
      SortedSize(exits.Keys);
      ghost var body := ExitLines(exits);
      assert |body| == |keys|;
      if |exits| == 0 {
        assert body == [];
        BlockEmpty(lines, "exits");
        return;
      }
      lines := lines + [Section("exits")];
      ghost var base := lines;
      var i := 0;
      while i < |keys|
        invariant 0 <= i <= |keys| == |body|
        invariant lines == base + body[..i]
        invariant locationCount == old(locationCount)
      {
        SortedAt(exits.Keys, i);
        var line := ExitLine(keys[i], exits[keys[i]]);
        assert body[..i + 1] == body[..i] + [line];
        Associative(base, body[..i], [line]);
        lines := lines + [line];
        i := i + 1;
      }
      assert body[..i] == body;
      BlockAppend(old(lines), "exits", body);
      lines := lines + [SectionEnd];
    }

    /** The `locations` section of a region; each location takes the next
        number. */
    method WriteLocations(locations: map<string, string>, table: map<string, Location>)
      requires locations.Keys <= table.Keys
      modifies this
      ensures lines == old(lines) + Block("locations", LocationLines(locations, table, old(locationCount)))
      ensures locationCount == old(locationCount) + |locations|
    {
      var keys := Sorted(locations.Keys);
      SortedSize(locations.Keys);
      ghost var first := locationCount;
      ghost var body := LocationLines(locations, table, first);
      assert |body| == |keys|;
      if |locations| == 0 {
        assert body == [];
        BlockEmpty(lines, "locations");
        return;
      }
      lines := lines + [Section("locations")];
      ghost var base := lines;
      var i := 0;
      while i < |keys|
        invariant 0 <= i <= |keys| == |body|
        invariant lines == base + body[..i]
        invariant locationCount == first + i
      {
        SortedAt(locations.Keys, i);
        var location := table[keys[i]];
        var line := LocationLine(location.name, locationCount, location.kind, location.item, locations[keys[i]]);
        assert body[..i + 1] == body[..i] + [line];
        Associative(base, body[..i], [line]);
        lines := lines + [line];
        locationCount := locationCount + 1;
        i := i + 1;
      }
      assert body[..i] == body;
      BlockAppend(old(lines), "locations", body);
      lines := lines + [SectionEnd];
    }

    /** The `events` section of a region. */
    method WriteEvents(game: string, events: map<string, string>)
      modifies this
      ensures lines == old(lines) + Block("events", EventLines(game, events))
      ensures locationCount == old(locationCount)
    {
      var keys := Sorted(events.Keys);
      SortedSize(events.Keys);
      ghost var body := EventLines(game, events);
      assert |body| == |keys|;
      if |events| == 0 {
        assert body == [];
        BlockEmpty(lines, "events");
        return;
      }
      lines := lines + [Section("events")];
      ghost var base := lines;
      var i := 0;
      while i < |keys|
        invariant 0 <= i <= |keys| == |body|
        invariant lines == base + body[..i]
        invariant locationCount == old(locationCount)
      {
        SortedAt(events.Keys, i);
        var line := EventLine(Printer.EventName(game, keys[i]), events[keys[i]]);
        assert body[i] == line;
        assert body[..i + 1] == body[..i] + [line];
        Associative(base, body[..i], [line]);
        lines := lines + [line];
        i := i + 1;
      }
      assert body[..i] == body;
      BlockAppend(old(lines), "events", body);
      lines := lines + [SectionEnd];
    }

    /** One region: its opening line, its three sections, its closing line.
        The region's locations take the next numbers, in order, and the
        lines open this region and no other. */
    method WriteRegion(game: string, name: string, region: Region, table: map<string, Location>)
      requires region.locations.Keys <= table.Keys
      modifies this
      ensures lines == old(lines) + RegionLines(game, name, region, table, old(locationCount))
      ensures locationCount == old(locationCount) + |region.locations|
      ensures Project(lines, IdOf) == Project(old(lines), IdOf) + Range(old(locationCount), |region.locations|)
      ensures Project(lines, RegionOf) == Project(old(lines), RegionOf) + [name]
    {
      lines := lines + [Open(name)];
      WriteExits(region.exits);
      WriteLocations(region.locations, table);
      WriteEvents(game, region.events);
      lines := lines + [Close];
      Reassociate(old(lines), [Open(name)],
                  Block("exits", ExitLines(region.exits)),
                  Block("locations", LocationLines(region.locations, table, old(locationCount))),
                  Block("events", EventLines(game, region.events)),
                  [Close]);
      ghost var written := RegionLines(game, name, region, table, old(locationCount));
      ProjectAppend(old(lines), written, IdOf);
      RegionIds(game, name, region, table, old(locationCount));
      ProjectAppend(old(lines), written, RegionOf);
      RegionOpens(game, name, region, table, old(locationCount));
    }

    /** The regions dictionary: every region, in ascending name order, the
        locations numbered on from the count so far. */
    method WriteRegions(game: string, regions: map<string, Region>, table: map<string, Location>)
      requires Covered(table.Keys, regions)
      modifies this
      ensures lines == old(lines) + FileLines(game, regions, table, old(locationCount))
      ensures locationCount == old(locationCount) + LocationTotal(regions)
    {
      var names := Sorted(regions.Keys);
      SortedIn(regions.Keys);
      var i := 0;
      while i < |names|
        invariant 0 <= i <= |names|
        invariant lines + LinesOf(game, regions, table, locationCount, names, i)
                  == old(lines) + FileLines(game, regions, table, old(locationCount))
        invariant locationCount + CountOf(regions, names, i) == old(locationCount) + LocationTotal(regions)
      {
        var name := names[i];
        var next := i + 1;
        label before:
        WriteRegion(game, name, regions[name], table);
        RegionStep(game, regions, table, old@before(lines), old@before(locationCount), locationCount,
                   names, i, next);
        i := next;
      }
      assert lines + [] == lines;
    }
  }

  /** Writing the `i0`-th region moves the loop of `WriteRegions` on by one
      region: what is written plus what remains is what remained before. */
  lemma RegionStep(game: string, regions: map<string, Region>, table: map<string, Location>,
                   done: seq<Line>, c0: nat, c1: nat, names: seq<string>, i0: nat, i1: nat)
    requires Covered(table.Keys, regions)
    requires Listed(regions, names)
    requires i0 < |names| && i1 == i0 + 1
    requires c1 == c0 + |regions[names[i0]].locations|
    ensures (done + RegionLines(game, names[i0], regions[names[i0]], table, c0))
            + LinesOf(game, regions, table, c1, names, i1)
            == done + LinesOf(game, regions, table, c0, names, i0)
    ensures c1 + CountOf(regions, names, i1) == c0 + CountOf(regions, names, i0)
  {
    Associative(done, RegionLines(game, names[i0], regions[names[i0]], table, c0),
                       LinesOf(game, regions, table, c1, names, i1));
  }

  /** The locations of the named regions from the `i`-th on are numbered
      consecutively from `count`, with no gap and no repeat. */
  lemma {:induction false} FileIds(game: string, regions: map<string, Region>, table: map<string, Location>,
                                   count: nat, names: seq<string>, i: nat)
    requires Covered(table.Keys, regions)
    requires Listed(regions, names) && i <= |names|
    ensures Project(LinesOf(game, regions, table, count, names, i), IdOf) == Range(count, CountOf(regions, names, i))
    decreases |names| - i
  {
    if i < |names| {
      FileIds(game, regions, table, count + |regions[names[i]].locations|, names, i + 1);
      IdsStep(game, regions, table, count, names, i);
    }
  }

  /** One region's numbers in front of the numbers of the regions after it. */
  lemma IdsStep(game: string, regions: map<string, Region>, table: map<string, Location>,
                count: nat, names: seq<string>, i: nat)
    requires Covered(table.Keys, regions)
    requires Listed(regions, names) && i < |names|
    requires Project(LinesOf(game, regions, table, count + |regions[names[i]].locations|, names, i + 1), IdOf)
             == Range(count + |regions[names[i]].locations|, CountOf(regions, names, i + 1))
    ensures Project(LinesOf(game, regions, table, count, names, i), IdOf) == Range(count, CountOf(regions, names, i))
  {
    var name := names[i];
    var region := regions[name];
    var m, n := |region.locations|, CountOf(regions, names, i + 1);
    ProjectUnfold(game, regions, table, count, names, i, IdOf);
    RegionIds(game, name, region, table, count);
    RangeAppend(count, m, n, m + n);
  }

  /** The named regions from the `i`-th on are opened once each, in the
      order of the list. */
  lemma {:induction false} FileOpens(game: string, regions: map<string, Region>, table: map<string, Location>,
                                     count: nat, names: seq<string>, i: nat)
    requires Covered(table.Keys, regions)
    requires Listed(regions, names) && i <= |names|
    ensures Project(LinesOf(game, regions, table, count, names, i), RegionOf) == names[i..]
    decreases |names| - i
  {
    if i < |names| {
      FileOpens(game, regions, table, count + |regions[names[i]].locations|, names, i + 1);
      OpensStep(game, regions, table, count, names, i);
    }
  }

  /** One region opened in front of the regions after it. */
  lemma OpensStep(game: string, regions: map<string, Region>, table: map<string, Location>,
                  count: nat, names: seq<string>, i: nat)
    requires Covered(table.Keys, regions)
    requires Listed(regions, names) && i < |names|
    requires Project(LinesOf(game, regions, table, count + |regions[names[i]].locations|, names, i + 1), RegionOf)
             == names[i + 1..]
    ensures Project(LinesOf(game, regions, table, count, names, i), RegionOf) == names[i..]
  {
    var name := names[i];
    var region := regions[name];
    ProjectUnfold(game, regions, table, count, names, i, RegionOf);
    RegionOpens(game, name, region, table, count);
    DropFirst(names, i);
  }

  /** What is picked from the named regions from the `i`-th on: what is
      picked from the first, then from the rest. */
  lemma ProjectUnfold<T>(game: string, regions: map<string, Region>, table: map<string, Location>,
                         count: nat, names: seq<string>, i: nat, pick: Line -> Option<T>)
    requires Covered(table.Keys, regions)
    requires Listed(regions, names) && i < |names|
    ensures Project(LinesOf(game, regions, table, count, names, i), pick)
            == Project(RegionLines(game, names[i], regions[names[i]], table, count), pick)
               + Project(LinesOf(game, regions, table, count + |regions[names[i]].locations|, names, i + 1), pick)
    ensures CountOf(regions, names, i) == |regions[names[i]].locations| + CountOf(regions, names, i + 1)
  {
    LinesUnfold(game, regions, table, count, names, i);
    ProjectAppend(RegionLines(game, names[i], regions[names[i]], table, count),
                  LinesOf(game, regions, table, count + |regions[names[i]].locations|, names, i + 1), pick);
  }

  /** The first of the named regions from the `i`-th on, and the rest. */
  lemma LinesUnfold(game: string, regions: map<string, Region>, table: map<string, Location>,
                    count: nat, names: seq<string>, i: nat)
    requires Covered(table.Keys, regions)
    requires Listed(regions, names) && i < |names|
    ensures LinesOf(game, regions, table, count, names, i)
            == RegionLines(game, names[i], regions[names[i]], table, count)
               + LinesOf(game, regions, table, count + |regions[names[i]].locations|, names, i + 1)
    ensures CountOf(regions, names, i) == |regions[names[i]].locations| + CountOf(regions, names, i + 1)
  {
  }

  /** The regions dictionary numbers every location it lists from `first`
      on, consecutively, and opens every region exactly once, in ascending
      name order. */
  lemma FileShape(game: string, regions: map<string, Region>, table: map<string, Location>, first: nat)
    requires Covered(table.Keys, regions)
    ensures Project(FileLines(game, regions, table, first), IdOf) == Range(first, LocationTotal(regions))
    ensures Project(FileLines(game, regions, table, first), RegionOf) == Sorted(regions.Keys)
    ensures |Project(FileLines(game, regions, table, first), RegionOf)| == |regions|
    ensures Ascending(Project(FileLines(game, regions, table, first), RegionOf))
    ensures forall r :: r in Project(FileLines(game, regions, table, first), RegionOf) <==> r in regions
  {
    SortedIn(regions.Keys);
    FileIds(game, regions, table, first, Sorted(regions.Keys), 0);
    FileOpens(game, regions, table, first, Sorted(regions.Keys), 0);
    SortedFacts(regions.Keys);
    assert Sorted(regions.Keys)[0..] == Sorted(regions.Keys);
  }

  lemma Reassociate<T>(pre: seq<T>, a: seq<T>, b: seq<T>, c: seq<T>, d: seq<T>, e: seq<T>)
    ensures ((((pre + a) + b) + c) + d) + e == pre + ((((a + b) + c) + d) + e)
  {
    calc {
      ((((pre + a) + b) + c) + d) + e;
      (((pre + (a + b)) + c) + d) + e;
      ((pre + ((a + b) + c)) + d) + e;
      (pre + (((a + b) + c) + d)) + e;
      pre + ((((a + b) + c) + d) + e);
    }
  }
}
