/**
 * The colour and label helpers of the editor: `ensureHexColor`, `hexToRgb`,
 * the colour picker's `asColor` and `apply`, `getNameLabel`, and the
 * building height and colour priority chains read from a way's tags.
 */
module Styles {
  import opened Wrappers
  import opened Text
  import opened OsmGraph

  /** `/^#[0-9A-Fa-f]{6}$/`. */
  predicate IsHexColor(s: string)
  {
    |s| == 7 && s[0] == '#' && forall i :: 1 <= i < 7 ==> IsHexDigit(s[i])
  }

  /** Three colour components as read from `rgb(r, g, b)` or a hex colour. */
  datatype Rgb = Rgb(r: nat, g: nat, b: nat)
  {
    predicate InByteRange() { r < 256 && g < 256 && b < 256 }
  }

  /** The end of the run of decimal digits starting at `j`. */
  function DigitsEnd(s: string, j: nat): (k: nat)
    requires j <= |s|
    ensures j <= k <= |s|
    ensures forall i :: j <= i < k ==> IsDigit(s[i])
    ensures k < |s| ==> !IsDigit(s[k])
    decreases |s| - j
  {
    if j < |s| && IsDigit(s[j]) then DigitsEnd(s, j + 1) else j
  }

  /** The end of the run of white space starting at `j` (`\s*`). */
  function SpacesEnd(s: string, j: nat): (k: nat)
    requires j <= |s|
    ensures j <= k <= |s|
    ensures forall i :: j <= i < k ==> IsSpace(s[i])
    ensures k < |s| ==> !IsSpace(s[k])
    decreases |s| - j
  {
    if j < |s| && IsSpace(s[j]) then SpacesEnd(s, j + 1) else j
  }

  /** `(\d+)` at `j`, then the literal `after`: the number and the index past `after`. */
  function NumberThen(s: string, j: nat, after: char): (r: Option<(nat, nat)>)
    requires j <= |s|
    ensures r.Some? ==> r.value.1 <= |s|
  {
    var k := DigitsEnd(s, j);
    if k == j || k == |s| || s[k] != after then None
    else Some((DigitsValue(s[j..k]), k + 1))
  }

  /**
   * `/rgb\((\d+),\s*(\d+),\s*(\d+)\)/` tried at index `i`. Each `\d+` is
   * followed by a non-digit and each `\s*` by a digit, so the greedy runs
   * are the only way the pattern can match there.
   */
  function RgbAt(s: string, i: nat): Option<Rgb>
    requires i <= |s|
  {
    if |s| - i < 4 || s[i..i + 4] != "rgb(" then None
    else
      var r := NumberThen(s, i + 4, ',');
      if r.None? then None
      else
        var g := NumberThen(s, SpacesEnd(s, r.value.1), ',');
        if g.None? then None
        else
          var b := NumberThen(s, SpacesEnd(s, g.value.1), ')');
          if b.None? then None
          else Some(Rgb(r.value.0, g.value.0, b.value.0))
  }

  /** `s.match(...)` from index `i` on: the leftmost match. */
  function FindRgb(s: string, i: nat): (r: Option<Rgb>)
    requires i <= |s|
    ensures r.None? <==> forall k :: i <= k <= |s| ==> RgbAt(s, k).None?
    ensures r.Some? ==> exists k :: i <= k <= |s| && RgbAt(s, k) == r
    decreases |s| - i
  {
    if RgbAt(s, i).Some? then RgbAt(s, i)
    else if i == |s| then None
    else FindRgb(s, i + 1)
  }

  /** `match` reports the leftmost occurrence: no match starts before the one found. */
  lemma {:induction false} FindRgbLeftmost(s: string, i: nat)
    requires i <= |s|
    ensures FindRgb(s, i).Some? ==> exists k :: i <= k <= |s| && RgbAt(s, k) == FindRgb(s, i) && NoRgbBetween(s, i, k)
    decreases |s| - i
  {
    if RgbAt(s, i).Some? {
      assert NoRgbBetween(s, i, i);
    } else if i < |s| {
      FindRgbLeftmost(s, i + 1);
      if FindRgb(s, i + 1).Some? {
        var k :| i + 1 <= k <= |s| && RgbAt(s, k) == FindRgb(s, i + 1) && NoRgbBetween(s, i + 1, k);
        assert NoRgbBetween(s, i, k);
      }
    }
  }

  /** No `rgb(...)` match starts in `i..k-1`. */
  predicate NoRgbBetween(s: string, i: nat, k: nat)
    requires k <= |s|
  {
    forall j :: i <= j < k ==> RgbAt(s, j).None?
  }

  /** The first `rgb(...)` in the lowercased text, as both colour helpers look for it. */
  function RgbIn(c: string): Option<Rgb>
  {
    FindRgb(ToLower(c), 0)
  }

  /** `'#' + [r,g,b].map(x => x.toString(16).padStart(2,'0')).join('')`. */
  function RgbHex(c: Rgb): string
  {
    "#" + Hex2(c.r) + Hex2(c.g) + Hex2(c.b)
  }

  /** The hex text is a valid `#RRGGBB` exactly when every component fits in a byte. */
  lemma RgbHexValid(c: Rgb)
    ensures IsHexColor(RgbHex(c)) <==> c.InByteRange()
  {
    var s := RgbHex(c);
    if c.InByteRange() {
      assert forall i :: 1 <= i < 3 ==> s[i] == Hex2(c.r)[i - 1];
      assert forall i :: 3 <= i < 5 ==> s[i] == Hex2(c.g)[i - 3];
      assert forall i :: 5 <= i < 7 ==> s[i] == Hex2(c.b)[i - 5];
    }
  }

  /** The colour names `ensureHexColor` knows (keys already lowercase). */
  const ColorNames: map<string, string> := map[
    "red" := "#FF0000", "green" := "#00FF00", "blue" := "#0000FF", "white" := "#FFFFFF",
    "black" := "#000000", "gray" := "#808080", "grey" := "#808080", "yellow" := "#FFFF00",
    "orange" := "#FFA500", "purple" := "#800080"]

  /**
   * `ensureHexColor(color)`: empty or "transparent" give the default; a
   * valid hex colour is kept; then a colour name; then the first `rgb(...)`
   * written as hex; otherwise the default (`defaultBuildingColor`).
   */
  function EnsureHexColor(color: string, dflt: string): (r: string)
    ensures color == "" || color == "transparent" ==> r == dflt
    ensures IsHexColor(color) ==> r == color
    ensures IsHexColor(r) || r == dflt || (RgbIn(color).Some? && r == RgbHex(RgbIn(color).value))
  {
    if color == "" || color == "transparent" then dflt
    else if IsHexColor(color) then color
    else
      var lc := ToLower(color);
      if lc in ColorNames then ColorNamesValid(lc); ColorNames[lc]
      else if FindRgb(lc, 0).Some? then RgbHex(FindRgb(lc, 0).value)
      else dflt
  }

  /**
   * With a valid default, the result is a valid hex colour unless it was
   * read from an `rgb(...)` with a component above 255; a valid hex input is
   * returned as is, so a valid result is a fixed point.
   */
  lemma EnsureHexColorValid(color: string, dflt: string)
    ensures IsHexColor(color) ==> EnsureHexColor(color, dflt) == color
    ensures IsHexColor(dflt) && (RgbIn(color).Some? ==> RgbIn(color).value.InByteRange())
      ==> IsHexColor(EnsureHexColor(color, dflt))
    ensures IsHexColor(EnsureHexColor(color, dflt)) ==>
      EnsureHexColor(EnsureHexColor(color, dflt), dflt) == EnsureHexColor(color, dflt)
  {
    var r := EnsureHexColor(color, dflt);
    if IsHexColor(r) {
      assert r != "" && r != "transparent";
    }
    if !(color == "" || color == "transparent" || IsHexColor(color)) {
      var lc := ToLower(color);
      if lc in ColorNames {
        ColorNamesValid(lc);
      } else if RgbIn(color).Some? {
        RgbHexValid(RgbIn(color).value);
      }
    }
  }

  lemma ColorNamesValid(name: string)
    requires name in ColorNames
    ensures IsHexColor(ColorNames[name])
  {
    var hex := "0123456789ABCDEF";
    assert forall i :: 0 <= i < |hex| ==> IsHexDigit(hex[i]);
  }

  /** The colour the picker falls back to. */
  const PickerDefault: string := "#F0F0F0"

  /** `asColor(c)`: a valid hex colour as is, else the first `rgb(...)` as hex, else #F0F0F0. */
  function AsColor(c: string): (r: string)
    ensures IsHexColor(c) ==> r == c
    ensures !IsHexColor(r) <==> !IsHexColor(c) && RgbIn(c).Some? && !RgbIn(c).value.InByteRange()
  {
    if IsHexColor(c) then c
    else if RgbIn(c).Some? then RgbHexValid(RgbIn(c).value); RgbHex(RgbIn(c).value)
    else PickerDefault
  }

  /**
   * `asColor` keeps valid colours, and its result is invalid exactly when it
   * came from an `rgb(...)` with a component above 255; it is idempotent
   * whenever its result is valid.
   */
  lemma AsColorRules(c: string)
    ensures IsHexColor(c) ==> AsColor(c) == c
    ensures !IsHexColor(AsColor(c)) <==> !IsHexColor(c) && RgbIn(c).Some? && !RgbIn(c).value.InByteRange()
    ensures IsHexColor(AsColor(c)) ==> AsColor(AsColor(c)) == AsColor(c)
  {
    if RgbIn(c).Some? {
      RgbHexValid(RgbIn(c).value);
    }
  }

  /** The text `rgb(r,g,b)` for three components, as a user would type it. */
  function RgbText(c: Rgb): string
  {
    "rgb(" + NatToString(c.r) + "," + NatToString(c.g) + "," + NatToString(c.b) + ")"
  }

  lemma {:induction false} DigitsEndAt(s: string, j: nat, k: nat)
    requires j <= k < |s|
    requires forall i :: j <= i < k ==> IsDigit(s[i])
    requires !IsDigit(s[k])
    ensures DigitsEnd(s, j) == k
    decreases k - j
  {
    if j < k {
      DigitsEndAt(s, j + 1, k);
    }
  }

  /** The digits of `n` at `j`, followed by `after`, read back as `n`. */
  lemma NumberThenAt(s: string, j: nat, n: nat, after: char)
    requires j + |NatToString(n)| < |s|
    requires s[j..j + |NatToString(n)|] == NatToString(n)
    requires s[j + |NatToString(n)|] == after && !IsDigit(after)
    ensures NumberThen(s, j, after) == Some((n, j + |NatToString(n)| + 1))
  {
    var d := NatToString(n);
    assert forall i :: j <= i < j + |d| ==> s[i] == d[i - j];
    DigitsEndAt(s, j, j + |d|);
    NatToStringRoundTrip(n);
  }

  lemma LowerKeeps(s: string)
    requires forall i :: 0 <= i < |s| ==> !('A' <= s[i] <= 'Z')
    ensures ToLower(s) == s
  {
  }

  lemma RgbTextLower(c: Rgb)
    ensures ToLower(RgbText(c)) == RgbText(c)
  {
    var t := RgbText(c);
    var dr, dg, db := NatToString(c.r), NatToString(c.g), NatToString(c.b);
    var j1 := 4;
    var j2 := j1 + |dr| + 1;
    var j3 := j2 + |dg| + 1;
    forall i | 0 <= i < |t|
      ensures !('A' <= t[i] <= 'Z')
    {
      if j1 <= i < j1 + |dr| { assert t[i] == dr[i - j1]; }
      else if j2 <= i < j2 + |dg| { assert t[i] == dg[i - j2]; }
      else if j3 <= i < j3 + |db| { assert t[i] == db[i - j3]; }
    }
    LowerKeeps(t);
  }

  /** The three numbers of a text laid out as `rgb(`, digits, `,`, digits, `,`, digits, `)`. */
  lemma RgbLayoutNumbers(t: string, c: Rgb, j2: nat, j3: nat, j4: nat)
    requires j2 == 4 + |NatToString(c.r)| + 1 && j3 == j2 + |NatToString(c.g)| + 1
    requires j4 == j3 + |NatToString(c.b)| + 1 && j4 <= |t|
    requires t[4..j2 - 1] == NatToString(c.r) && t[j2 - 1] == ','
    requires t[j2..j3 - 1] == NatToString(c.g) && t[j3 - 1] == ','
    requires t[j3..j4 - 1] == NatToString(c.b) && t[j4 - 1] == ')'
    ensures NumberThen(t, 4, ',') == Some((c.r, j2)) && SpacesEnd(t, j2) == j2
    ensures NumberThen(t, j2, ',') == Some((c.g, j3)) && SpacesEnd(t, j3) == j3
    ensures NumberThen(t, j3, ')') == Some((c.b, j4))
  {
    NumberField(t, 4, c.r, ',', j2);
    NumberField(t, j2, c.g, ',', j3);
    NumberField(t, j3, c.b, ')', j4);
  }

  /** Digits of `n` right at `j`, closed by `after` at `k - 1`: `\s*` is empty there and `(\d+)` then `after` reads `n`. */
  lemma NumberField(t: string, j: nat, n: nat, after: char, k: nat)
    requires k == j + |NatToString(n)| + 1 && k <= |t|
    requires t[j..k - 1] == NatToString(n) && t[k - 1] == after && !IsDigit(after)
    ensures SpacesEnd(t, j) == j
    ensures NumberThen(t, j, after) == Some((n, k))
  {
    assert t[j] == NatToString(n)[0];
    NumberThenAt(t, j, n, after);
  }

  lemma RgbAtFromParts(t: string, c: Rgb, j2: nat, j3: nat)
    requires 4 <= |t| && t[0..4] == "rgb("
    requires j2 <= |t| && j3 <= |t|
    requires NumberThen(t, 4, ',') == Some((c.r, j2)) && SpacesEnd(t, j2) == j2
    requires NumberThen(t, j2, ',') == Some((c.g, j3)) && SpacesEnd(t, j3) == j3
    requires NumberThen(t, j3, ')').Some? && NumberThen(t, j3, ')').value.0 == c.b
    ensures RgbAt(t, 0) == Some(c)
  {
  }

  /** Where the pieces of `rgb(a,b,d)` sit. */
  lemma RgbTextLayout(a: string, b: string, d: string)
    ensures var t := "rgb(" + a + "," + b + "," + d + ")";
      var j2 := 4 + |a| + 1;
      var j3 := j2 + |b| + 1;
      && |t| == j3 + |d| + 1 && t[0..4] == "rgb("
      && t[4..j2 - 1] == a && t[j2 - 1] == ','
      && t[j2..j3 - 1] == b && t[j3 - 1] == ','
      && t[j3..j3 + |d|] == d && t[j3 + |d|] == ')'
  {
  }

  lemma RgbAtText(c: Rgb)
    ensures RgbAt(RgbText(c), 0) == Some(c)
  {
    var t := RgbText(c);
    var dr, dg, db := NatToString(c.r), NatToString(c.g), NatToString(c.b);
    var j2 := 4 + |dr| + 1;
    var j3 := j2 + |dg| + 1;
    RgbTextLayout(dr, dg, db);
    RgbLayoutNumbers(t, c, j2, j3, j3 + |db| + 1);
    RgbAtFromParts(t, c, j2, j3);
  }

  /** Typing `rgb(r,g,b)` is read back as exactly those components, by both colour helpers. */
  lemma RgbTextRead(c: Rgb)
    ensures RgbIn(RgbText(c)) == Some(c)
    ensures AsColor(RgbText(c)) == RgbHex(c)
  {
    RgbTextLower(c);
    RgbAtText(c);
    assert RgbText(c)[0] == 'r';
  }

  /** `ColorPickerDialog.apply`: `onApply` receives the converted text only when it is a valid `#RRGGBB`. */
  function PickerApply(input: string): (r: Option<string>)
    ensures r.Some? ==> IsHexColor(r.value) && r.value == AsColor(input)
    ensures r.None? <==> !IsHexColor(AsColor(input))
  {
    var hex := AsColor(input);
    if IsHexColor(hex) then Some(hex) else None
  }

  /** `s.replace('#', '')`: only the first '#' is removed. */
  function RemoveFirstHash(s: string): (r: string)
    ensures '#' !in s ==> r == s
    ensures s != [] && s[0] == '#' ==> r == s[1..]
    ensures |r| == if '#' in s then |s| - 1 else |s|
    decreases |s|
  {
    if s == [] then s
    else if s[0] == '#' then s[1..]
    else [s[0]] + RemoveFirstHash(s[1..])
  }

  /** `h.split('').map(c => c + c).join('')` for three characters. */
  function Doubled(h: string): (r: string)
    requires |h| == 3
  {
    [h[0], h[0], h[1], h[1], h[2], h[2]]
  }

  predicate AllHex(s: string)
  {
    forall i :: 0 <= i < |s| ==> IsHexDigit(s[i])
  }

  /**
   * `hexToRgb(hex)`: an empty input gives null; the first '#' is removed,
   * three digits are doubled, and exactly six hex digits give the three
   * components.
   */
  function HexToRgb(hex: string): (r: Option<Rgb>)
    ensures r.Some? ==> r.value.InByteRange()
  {
    if hex == "" then None
    else
      var h := RemoveFirstHash(hex);
      var h6 := if |h| == 3 then Doubled(h) else h;
      if |h6| != 6 || !AllHex(h6) then None
      else
        TwoHexDigitsByte(h6[0..2]);
        TwoHexDigitsByte(h6[2..4]);
        TwoHexDigitsByte(h6[4..6]);
        Some(Rgb(HexValue(h6[0..2]), HexValue(h6[2..4]), HexValue(h6[4..6])))
  }

  lemma TwoHexDigitsByte(s: string)
    requires |s| == 2 && AllHex(s)
    ensures HexValue(s) == 16 * HexDigitValue(s[0]) + HexDigitValue(s[1])
    ensures HexValue(s) < 256
  {
    var p := s[..1];
    assert p[..0] == [] && p[0] == s[0];
    assert HexValue(p) == HexDigitValue(s[0]);
    assert s[..|s| - 1] == p;
  }

  /**
   * `hexToRgb` accepts exactly the texts that, once the first '#' is
   * removed, are three or six hex digits.
   */
  lemma HexToRgbAccepts(hex: string)
    ensures HexToRgb(hex).Some? <==>
      var h := RemoveFirstHash(hex); (|h| == 3 || |h| == 6) && AllHex(h)
  {
    var h := RemoveFirstHash(hex);
    if hex == "" {
      assert h == "";
    }
    if |h| == 3 && AllHex(Doubled(h)) {
      assert forall i :: 0 <= i < 3 ==> h[i] == Doubled(h)[2 * i];
    }
  }

  /** Reading back the hex text written for a colour gives its components. */
  lemma HexToRgbRoundTrip(c: Rgb)
    requires c.InByteRange()
    ensures HexToRgb(RgbHex(c)) == Some(c)
  {
    var s := RgbHex(c);
    RgbHexValid(c);
    var h := RemoveFirstHash(s);
    assert h == Hex2(c.r) + Hex2(c.g) + Hex2(c.b);
    assert h[0..2] == Hex2(c.r);
    assert h[2..4] == Hex2(c.g);
    assert h[4..6] == Hex2(c.b);
  }

  /** The characters `getNameLabel` keeps: the CJK Unified Ideographs block. */
  predicate IsCjk(c: char)
  {
    '一' <= c <= '鿿'
  }

  /** The CJK characters of `s`, in order. */
  function CjkOnly(s: string): (r: string)
    ensures forall i :: 0 <= i < |r| ==> IsCjk(r[i])
    ensures |r| <= |s|
    decreases |s|
  {
    if s == [] then [] else CjkOnly(s[..|s| - 1]) + (if IsCjk(s[|s| - 1]) then [s[|s| - 1]] else [])
  }

  lemma {:induction false} CjkOnlyOfCjk(s: string)
    requires forall i :: 0 <= i < |s| ==> IsCjk(s[i])
    ensures CjkOnly(s) == s
    decreases |s|
  {
    if s != [] {
      CjkOnlyOfCjk(s[..|s| - 1]);
      assert s[..|s| - 1] + [s[|s| - 1]] == s;
    }
  }

  /** What `getNameLabel` returns for a name: its CJK characters if there are any, else the name. */
  function NameLabel(name: Option<string>): Option<string>
  {
    if name.None? || name.value == "" then None
    else if CjkOnly(name.value) != "" then Some(CjkOnly(name.value))
    else name
  }

  /**
   * `getNameLabel(name)`: a missing or empty name gives null; otherwise the
   * loop collects the CJK characters and the name is returned when there
   * are none.
   */
  method GetNameLabel(name: Option<string>) returns (r: Option<string>)
    ensures r == NameLabel(name)
  {
    if name.None? || name.value == "" {
      return None;
    }
    var s := name.value;
    var zh := "";
    var i := 0;
    while i < |s|
      invariant 0 <= i <= |s|
      invariant zh == CjkOnly(s[..i])
    {
      assert s[..i + 1][..i] == s[..i];
      if IsCjk(s[i]) {
        zh := zh + [s[i]];
      }
      i := i + 1;
    }
    assert s[..i] == s;
    r := if zh != "" then Some(zh) else name;
  }

  /**
   * A label is either made only of CJK characters or is the whole name, and
   * labelling a label changes nothing.
   */
  lemma NameLabelIdempotent(name: Option<string>)
    ensures NameLabel(name).None? <==> name.None? || name.value == ""
    ensures NameLabel(name).Some? ==>
      NameLabel(name) == name || forall i :: 0 <= i < |NameLabel(name).value| ==> IsCjk(NameLabel(name).value[i])
    ensures NameLabel(NameLabel(name)) == NameLabel(name)
  {
    if name.Some? && name.value != "" && CjkOnly(name.value) != "" {
      CjkOnlyOfCjk(CjkOnly(name.value));
    }
  }

  function Lookup(tags: Tags, key: string): Option<string>
  {
    if key in tags then Some(tags[key]) else None
  }

  /** A tag present with a non-empty value (a truthy string). */
  predicate Has(tags: Tags, key: string)
  {
    key in tags && tags[key] != ""
  }

  /** `parseFloat` of a possibly missing value: undefined parses to NaN. */
  function ParseOpt(v: Option<string>, parseFloat: ParseFloat): Option<real>
  {
    if v.None? then None else parseFloat(v.value)
  }

  /** The default height in metres per `building` value. */
  const BuildingDefaults: map<string, real> := map[
    "house" := 6.0, "residential" := 15.0, "commercial" := 20.0, "retail" := 8.0, "office" := 25.0,
    "industrial" := 12.0, "school" := 10.0, "university" := 15.0, "hospital" := 18.0,
    "apartment" := 30.0, "hotel" := 25.0]

  /** The level count `getBuildingHeight` reads: `tags.levels || tags['building:levels']`. */
  function LevelsText(tags: Tags): Option<string>
  {
    if Has(tags, "levels") then Lookup(tags, "levels") else Lookup(tags, "building:levels")
  }

  /**
   * `getBuildingHeight(tags)`: a numeric `height`, else three metres per
   * level, else a numeric `building:height`, else the default for the
   * building type, else `defaultHeight`.
   */
  function BuildingHeight(tags: Tags, defaultHeight: real, parseFloat: ParseFloat): (r: real)
    ensures Has(tags, "height") && parseFloat(tags["height"]).Some? ==> r == parseFloat(tags["height"]).value
    ensures (forall v :: parseFloat(v).None?) ==>
      r == if "building" in tags && tags["building"] in BuildingDefaults then BuildingDefaults[tags["building"]] else defaultHeight
  {
    if Has(tags, "height") && parseFloat(tags["height"]).Some? then parseFloat(tags["height"]).value
    else if ParseOpt(LevelsText(tags), parseFloat).Some? then ParseOpt(LevelsText(tags), parseFloat).value * 3.0
    else if ParseOpt(Lookup(tags, "building:height"), parseFloat).Some? then ParseOpt(Lookup(tags, "building:height"), parseFloat).value
    else if "building" in tags && tags["building"] in BuildingDefaults then BuildingDefaults[tags["building"]]
    else defaultHeight
  }

  /**
   * A numeric `height` tag overrides everything else; with no height,
   * levels or building height at all, the building type decides, and an
   * untyped building gets the configured default.
   */
  lemma BuildingHeightPriority(tags: Tags, h: string, t: real, defaultHeight: real, parseFloat: ParseFloat)
    requires h != "" && parseFloat(h) == Some(t)
    ensures BuildingHeight(tags["height" := h], defaultHeight, parseFloat) == t
    ensures "height" !in tags && "levels" !in tags && "building:levels" !in tags && "building:height" !in tags ==>
      BuildingHeight(tags, defaultHeight, parseFloat) ==
        (if "building" in tags && tags["building"] in BuildingDefaults then BuildingDefaults[tags["building"]] else defaultHeight)
    ensures "height" !in tags && "building:levels" !in tags && "building:height" !in tags && "building" !in tags ==>
      BuildingHeight(tags["levels" := h], defaultHeight, parseFloat) == 3.0 * t
  {
  }

  /** The colour tags `getBuildingColor` tries, in order. */
  const ColourKeys: seq<string> := ["building:colour", "building:color", "colour", "color"]

  /** The first of `keys` with a non-empty value. */
  function FirstTruthy(tags: Tags, keys: seq<string>): (r: Option<string>)
    ensures r.Some? ==> r.value != "" && exists i :: 0 <= i < |keys| && keys[i] in tags && tags[keys[i]] == r.value
    ensures r.None? <==> forall i :: 0 <= i < |keys| ==> !Has(tags, keys[i])
    ensures keys != [] && Has(tags, keys[0]) ==> r == Some(tags[keys[0]])
    decreases |keys|
  {
    if keys == [] then None
    else if Has(tags, keys[0]) then Some(tags[keys[0]])
    else
      var rest := FirstTruthy(tags, keys[1..]);
      assert forall i :: 1 <= i < |keys| ==> keys[1..][i - 1] == keys[i];
      rest
  }

  /** `getBuildingColor(tags)`: the first non-empty colour tag through `ensureHexColor`, else the default. */
  function BuildingColor(tags: Tags, dflt: string): (r: string)
    ensures Has(tags, "building:colour") ==> r == EnsureHexColor(tags["building:colour"], dflt)
    ensures (forall i :: 0 <= i < |ColourKeys| ==> !Has(tags, ColourKeys[i])) ==> r == dflt
  {
    var c := FirstTruthy(tags, ColourKeys);
    if c.Some? then EnsureHexColor(c.value, dflt) else dflt
  }

  /**
   * `building:colour` beats every other colour tag, and with no colour tag
   * the default is used; with a valid default, a valid hex colour tag is
   * used as is.
   */
  lemma BuildingColorPriority(tags: Tags, dflt: string, c: string)
    requires c != ""
    ensures BuildingColor(tags["building:colour" := c], dflt) == EnsureHexColor(c, dflt)
    ensures (forall k :: k in ColourKeys ==> k !in tags) ==> BuildingColor(tags, dflt) == dflt
    ensures IsHexColor(c) ==> BuildingColor(tags["building:colour" := c], dflt) == c
  {
    EnsureHexColorValid(c, dflt);
    if forall k :: k in ColourKeys ==> k !in tags {
      assert forall i :: 0 <= i < |ColourKeys| ==> !Has(tags, ColourKeys[i]);
    }
  }
}
