/** The string handling of Shader (src/Renderer/Shader.cpp): the stage name of a
    `#type` line, the splitter that cuts one source file into per-stage
    sources, and the shader name taken from the file path. Reading the file and
    compiling the stages are left out.

    Positions are indices into the string; std::string::npos is `None`. The
    size_t subtractions the source passes as `substr` counts are written out
    with their wrap-around. */
module Shaders {
  import opened Wrappers

  const GlFragmentShader: nat := 0x8B30
  const GlVertexShader: nat := 0x8B31
  const GlGeometryShader: nat := 0x8DD9

  const SizeTLimit: nat := 0x1_0000_0000_0000_0000

  /** std::string's `==`: the same length and the same character at every
      position, compared from the front. */
  predicate SameText(a: string, b: string)
    decreases |a|
  {
    |a| == |b| && (a == [] || (a[0] == b[0] && SameText(a[1..], b[1..])))
  }

  /** Comparing character by character is string equality. */
  lemma {:induction false} SameTextIsEquality(a: string, b: string)
    ensures SameText(a, b) <==> a == b
    decreases |a|
  {
    if |a| == |b| && a != [] {
      SameTextIsEquality(a[1..], b[1..]);
      assert a == [a[0]] + a[1..] && b == [b[0]] + b[1..];
    }
  }

  /** The stage named on a `#type` line; 0 for an unknown name. */
  function ShaderTypeFromString(typeName: string): (glType: nat)
  {
    if SameText(typeName, "vertex") then GlVertexShader
    else if SameText(typeName, "fragment") || SameText(typeName, "pixel") then GlFragmentShader
    else if SameText(typeName, "geometry") then GlGeometryShader
    else 0
  }

  /** Exactly "vertex" names the vertex stage, exactly "fragment" and "pixel"
      the fragment stage, exactly "geometry" the geometry stage; every other
      name gives 0, which no stage uses. */
  lemma ShaderTypeNames(typeName: string)
    ensures ShaderTypeFromString(typeName) == GlVertexShader <==> typeName == "vertex"
    ensures ShaderTypeFromString(typeName) == GlFragmentShader <==> typeName == "fragment" || typeName == "pixel"
    ensures ShaderTypeFromString(typeName) == GlGeometryShader <==> typeName == "geometry"
    ensures ShaderTypeFromString(typeName) == 0 <==>
      typeName != "vertex" && typeName != "fragment" && typeName != "pixel" && typeName != "geometry"
  {
    SameTextIsEquality(typeName, "vertex");
    SameTextIsEquality(typeName, "fragment");
    SameTextIsEquality(typeName, "pixel");
    SameTextIsEquality(typeName, "geometry");
  }

  // ---------------------------------------------------------------------
  // The std::string operations the splitter and the name extraction use.

  /** `a - b` on size_t. */
  function SizeTSub(a: nat, b: nat): (d: nat)
    ensures d < SizeTLimit
    ensures a >= b && a - b < SizeTLimit ==> d == a - b
    ensures a < b && b - a <= SizeTLimit ==> d == SizeTLimit - (b - a)
  {
    (a - b) % SizeTLimit
  }

  /** `s.substr(pos, count)`: at most `count` characters from `pos`; the source
      gets std::out_of_range when `pos > s.size()`, which callers check first. */
  function Substr(s: string, pos: nat, count: nat): (r: string)
    requires pos <= |s|
    ensures |r| <= count && |r| <= |s| - pos
    ensures |r| == count || |r| == |s| - pos
    ensures forall i :: 0 <= i < |r| ==> r[i] == s[pos + i]
  {
    if pos + count <= |s| then s[pos..pos + count] else s[pos..]
  }

  /** `pat` occurs in `s` starting at `i`. */
  predicate MatchAt(s: string, pat: string, i: nat)
  {
    i + |pat| <= |s| && s[i..i + |pat|] == pat
  }

  /** `s.find(pat, from)`: the first occurrence at or after `from`. */
  function Find(s: string, pat: string, from: nat): (r: Option<nat>)
    ensures r.Some? ==> from <= r.value && MatchAt(s, pat, r.value)
    ensures r.Some? ==> forall j :: from <= j < r.value ==> !MatchAt(s, pat, j)
    ensures r.None? ==> forall j :: from <= j ==> !MatchAt(s, pat, j)
    decreases |s| - from
  {
    if from + |pat| > |s| then None
    else if s[from..from + |pat|] == pat then Some(from)
    else Find(s, pat, from + 1)
  }

  predicate IsLineBreak(c: char)
  {
    c == '\r' || c == '\n'
  }

  /** `s.find_first_of("\r\n", from)`. */
  function FindFirstLineBreak(s: string, from: nat): (r: Option<nat>)
    ensures r.Some? ==> from <= r.value < |s| && IsLineBreak(s[r.value])
    ensures r.Some? ==> forall j :: from <= j < r.value ==> !IsLineBreak(s[j])
    ensures r.None? ==> forall j :: from <= j < |s| ==> !IsLineBreak(s[j])
    decreases |s| - from
  {
    if from >= |s| then None
    else if IsLineBreak(s[from]) then Some(from)
    else FindFirstLineBreak(s, from + 1)
  }

  /** `s.find_first_not_of("\r\n", from)`. */
  function FindFirstNonBreak(s: string, from: nat): (r: Option<nat>)
    ensures r.Some? ==> from <= r.value < |s| && !IsLineBreak(s[r.value])
    ensures r.Some? ==> forall j :: from <= j < r.value ==> IsLineBreak(s[j])
    ensures r.None? ==> forall j :: from <= j < |s| ==> IsLineBreak(s[j])
    decreases |s| - from
  {
    if from >= |s| then None
    else if !IsLineBreak(s[from]) then Some(from)
    else FindFirstNonBreak(s, from + 1)
  }

  // ---------------------------------------------------------------------
  // PreProcess.

  const TypeToken: string := "#type"

  /** What can go wrong: `substr` throws std::out_of_range when the start lies
      past the end, which happens when a `#type` line is the last thing in the
      file (there is no section text after it). */
  datatype PreProcessError = OutOfRange

  type ShaderSources = map<nat, string>

  /** The section text starting at `start`: up to the next `#type` token,
      whose position is returned too, or to the end of the source. */
  function SectionFrom(source: string, start: nat): (r: (string, Option<nat>))
    requires start <= |source|
    ensures r.1.Some? ==> start <= r.1.value <= |source|
  {
    var next := Find(source, TypeToken, start);
    if next.None? then (source[start..], next) else (source[start..next.value], next)
  }

  /** One pass of the splitter's loop at the `#type` token at `pos`: the stage
      name runs from token+6 to the line break, the section from the first
      character after the line breaks up to the next token (returned as the
      next position) or the end; it replaces any earlier section of the same
      stage in `acc`. */
  function Step(source: string, pos: nat, acc: ShaderSources): (r: Result<(ShaderSources, Option<nat>), PreProcessError>)
    ensures r.Success? && r.value.1.Some? ==> pos < r.value.1.value <= |source|
  {
    var begin := pos + |TypeToken| + 1;
    if begin > |source| then Failure(OutOfRange)
    else
      var eol := FindFirstLineBreak(source, pos);
      if eol.None? then Failure(OutOfRange)
      else
        var typeName := Substr(source, begin, SizeTSub(eol.value, begin));
        var nextLinePos := FindFirstNonBreak(source, eol.value);
        if nextLinePos.None? then Failure(OutOfRange)
        else
          var section := SectionFrom(source, nextLinePos.value);
          Success((acc[ShaderTypeFromString(typeName) := section.0], section.1))
  }

  /** The splitter from the `#type` token at `pos` on, with the sections found
      so far in `acc`. */
  function Sections(source: string, pos: nat, acc: ShaderSources): (r: Result<ShaderSources, PreProcessError>)
    decreases |source| - pos
  {
    match Step(source, pos, acc)
    case Failure(e) => Failure(e)
    case Success((acc', next)) => if next.None? then Success(acc') else Sections(source, next.value, acc')
  }

  /** The per-stage sources of a whole file. */
  function SplitSource(source: string): (r: Result<ShaderSources, PreProcessError>)
  {
    var pos := Find(source, TypeToken, 0);
    if pos.None? then Success(map[]) else Sections(source, pos.value, map[])
  }

  /** Shader::PreProcess: the while loop of the source, advancing `pos` from
      one `#type` token to the next and filling the map. */
  method PreProcess(source: string) returns (r: Result<ShaderSources, PreProcessError>)
    ensures r == SplitSource(source)
  {
    var shaderSources: ShaderSources := map[];
    var pos := Find(source, TypeToken, 0);
    while pos.Some?
      invariant pos.Some? ==> pos.value <= |source|
      invariant SplitSource(source) == if pos.None? then Success(shaderSources) else Sections(source, pos.value, shaderSources)
      decreases if pos.None? then 0 else |source| + 1 - pos.value
    {
      var step := Step(source, pos.value, shaderSources);
      if step.Failure? {
        return Failure(step.error);
      }
      shaderSources := step.value.0;
      pos := step.value.1;
    }
    return Success(shaderSources);
  }

  // ---------------------------------------------------------------------
  // Properties of the splitter.

  /** One pass keeps every stage and adds the one it read. */
  lemma StepGrows(source: string, pos: nat, acc: ShaderSources)
    ensures Step(source, pos, acc).Success? ==>
      acc.Keys <= Step(source, pos, acc).value.0.Keys && Step(source, pos, acc).value.0 != map[]
  {
    if Step(source, pos, acc).Success? {
      var eol := FindFirstLineBreak(source, pos).value;
      var begin := pos + |TypeToken| + 1;
      var key := ShaderTypeFromString(Substr(source, begin, SizeTSub(eol, begin)));
      assert key in Step(source, pos, acc).value.0;
    }
  }

  /** A successful split keeps every stage it had and adds at least one. */
  lemma {:induction false} SectionsGrow(source: string, pos: nat, acc: ShaderSources)
    ensures Sections(source, pos, acc).Success? ==>
      acc.Keys <= Sections(source, pos, acc).value.Keys && Sections(source, pos, acc).value != map[]
    decreases |source| - pos
  {
    var st := Step(source, pos, acc);
    if st.Success? {
      StepGrows(source, pos, acc);
      if st.value.1.Some? {
        SectionsGrow(source, st.value.1.value, st.value.0);
      }
    }
  }

  /** A file splits into no sources exactly when it has no `#type` token. */
  lemma SplitSourceEmpty(source: string)
    ensures SplitSource(source) == Success(map[]) <==> forall i :: !MatchAt(source, TypeToken, i)
  {
    var pos := Find(source, TypeToken, 0);
    if pos.Some? {
      SectionsGrow(source, pos.value, map[]);
    }
  }

  /** `pat` inside the slice s[a..b] is `pat` inside s, shifted by a. */
  lemma MatchInSlice(s: string, pat: string, a: nat, b: nat, i: nat)
    requires a <= b <= |s| && MatchAt(s[a..b], pat, i)
    ensures MatchAt(s, pat, a + i)
  {
    var w := s[a..b];
    var m := s[a + i..a + i + |pat|];
    forall k | 0 <= k < |pat| ensures m[k] == pat[k] {
      assert w[i..i + |pat|][k] == w[i + k];
    }
  }

  /** A section holds no `#type` token: it stops at the next one. */
  lemma SectionHasNoToken(source: string, start: nat)
    requires start <= |source|
    ensures forall i :: !MatchAt(SectionFrom(source, start).0, TypeToken, i)
  {
    var next := Find(source, TypeToken, start);
    var end := if next.None? then |source| else next.value;
    assert SectionFrom(source, start).0 == source[start..end];
    forall i | MatchAt(source[start..end], TypeToken, i) ensures false {
      MatchInSlice(source, TypeToken, start, end, i);
    }
  }

  /** No stage text in `m` holds a `#type` token. */
  ghost predicate NoTokens(m: ShaderSources)
  {
    forall k :: k in m ==> forall i :: !MatchAt(m[k], TypeToken, i)
  }

  /** One step adds a section without a `#type` token. */
  lemma StepKeepsNoTokens(source: string, pos: nat, acc: ShaderSources)
    requires NoTokens(acc)
    ensures Step(source, pos, acc).Success? ==> NoTokens(Step(source, pos, acc).value.0)
  {
    var st := Step(source, pos, acc);
    if st.Success? {
      var eol := FindFirstLineBreak(source, pos).value;
      var nl := FindFirstNonBreak(source, eol).value;
      SectionHasNoToken(source, nl);
    }
  }

  /** No stage the splitter collects holds a `#type` token. */
  lemma {:induction false} SectionsHaveNoToken(source: string, pos: nat, acc: ShaderSources)
    requires NoTokens(acc)
    ensures Sections(source, pos, acc).Success? ==> NoTokens(Sections(source, pos, acc).value)
    decreases |source| - pos
  {
    var st := Step(source, pos, acc);
    StepKeepsNoTokens(source, pos, acc);
    if st.Success? && st.value.1.Some? {
      StepGrows(source, pos, acc);
      assert Sections(source, pos, acc) == Sections(source, st.value.1.value, st.value.0);
      SectionsHaveNoToken(source, st.value.1.value, st.value.0);
    }
  }

  /** Every stage a file splits into is free of `#type` tokens. */
  lemma SplitSourceHasNoToken(source: string)
    ensures SplitSource(source).Success? ==>
      var r := SplitSource(source).value;
      forall k :: k in r ==> forall i :: !MatchAt(r[k], TypeToken, i)
  {
    var pos := Find(source, TypeToken, 0);
    if pos.Some? {
      assert SplitSource(source) == Sections(source, pos.value, map[]);
      SectionsHaveNoToken(source, pos.value, map[]);
    }
  }

  // ---------------------------------------------------------------------
  // Round trip: a file written as `#type <name>` lines, each followed by its
  // section, splits back into those sections.

  datatype Section = Section(typeName: string, body: string)

  function SectionText(sec: Section): string
  {
    TypeToken + " " + sec.typeName + "\n" + sec.body
  }

  /** The source file holding the sections in order. */
  function Compose(secs: seq<Section>): string
  {
    if secs == [] then "" else SectionText(secs[0]) + Compose(secs[1..])
  }

  /** The stage a section is filed under. */
  function StageOf(sec: Section): nat
  {
    ShaderTypeFromString(sec.typeName)
  }

  /** The stage map built from the sections in order; a later section of a
      stage replaces an earlier one. */
  function Collect(secs: seq<Section>, acc: ShaderSources): ShaderSources
  {
    if secs == [] then acc
    else Collect(secs[1..], acc[StageOf(secs[0]) := secs[0].body])
  }

  /** A section the splitter reads back unchanged: a name without line breaks,
      a body that starts with something other than a line break and holds no
      `#type` token. */
  ghost predicate WellFormedSection(sec: Section)
  {
    && (forall i :: 0 <= i < |sec.typeName| ==> !IsLineBreak(sec.typeName[i]))
    && |sec.body| > 0 && !IsLineBreak(sec.body[0])
    && (forall i :: !MatchAt(sec.body, TypeToken, i))
  }

  lemma FirstLineBreakAt(s: string, from: nat, i: nat)
    requires from <= i < |s| && IsLineBreak(s[i])
    requires forall j :: from <= j < i ==> !IsLineBreak(s[j])
    ensures FindFirstLineBreak(s, from) == Some(i)
  {
  }

  lemma FirstNonBreakAt(s: string, from: nat, i: nat)
    requires from <= i < |s| && !IsLineBreak(s[i])
    requires forall j :: from <= j < i ==> IsLineBreak(s[j])
    ensures FindFirstNonBreak(s, from) == Some(i)
  {
  }

  lemma FindAt(s: string, pat: string, from: nat, i: nat)
    requires from <= i && MatchAt(s, pat, i)
    requires forall j :: from <= j < i ==> !MatchAt(s, pat, j)
    ensures Find(s, pat, from) == Some(i)
  {
  }

  /** The characters of a section's text. */
  lemma SectionTextAt(sec: Section)
    ensures var t := SectionText(sec); var n := |sec.typeName|;
      && |t| == 7 + n + |sec.body|
      && t[0] == '#'
      && (forall j :: 0 <= j < 6 ==> !IsLineBreak(t[j]))
      && (forall j :: 0 <= j < n ==> t[6 + j] == sec.typeName[j])
      && t[6 + n] == '\n'
      && t[7 + n..] == sec.body
      && t[6..6 + n] == sec.typeName
  {
  }

  /** Two `#type` tokens never overlap. */
  lemma TokensApart(s: string, i: nat, j: nat)
    requires MatchAt(s, TypeToken, i) && MatchAt(s, TypeToken, j) && i < j
    ensures i + |TypeToken| <= j
  {
    assert s[j] == '#' by {
      assert s[j..j + |TypeToken|][0] == s[j];
    }
    forall k | i < k < i + |TypeToken| ensures s[k] != '#' {
      assert s[i..i + |TypeToken|][k - i] == s[k];
    }
  }

  /** A token lying wholly inside a slice is a token of the slice. */
  lemma MatchInBody(s: string, start: nat, body: string, i: nat)
    requires start + |body| <= |s| && s[start..start + |body|] == body
    requires start <= i && i + |TypeToken| <= start + |body|
    requires MatchAt(s, TypeToken, i)
    ensures MatchAt(body, TypeToken, i - start)
  {
    forall k | 0 <= k < |TypeToken| ensures body[i - start + k] == TypeToken[k] {
      assert body[i - start + k] == s[start..start + |body|][i - start + k] == s[i + k];
      assert s[i..i + |TypeToken|][k] == s[i + k];
    }
    assert body[i - start..i - start + |TypeToken|] == TypeToken;
  }

  /** A `#type` token never starts inside a well-formed body when the text
      after the body is empty or another token. */
  lemma NoTokenInBody(s: string, start: nat, body: string, i: nat)
    requires start + |body| <= |s| && s[start..start + |body|] == body
    requires forall k :: !MatchAt(body, TypeToken, k)
    requires start + |body| == |s| || MatchAt(s, TypeToken, start + |body|)
    requires start <= i < start + |body|
    ensures !MatchAt(s, TypeToken, i)
  {
    var e := start + |body|;
    if MatchAt(s, TypeToken, i) {
      if e < |s| {
        TokensApart(s, i, e);
      }
      MatchInBody(s, start, body, i);
    }
  }

  /** Where the parts of a section's text sit once it is placed after `pre`
      and before `rest`. */
  lemma ComposedLayout(pre: string, sec: Section, rest: string)
    ensures var s := pre + SectionText(sec) + rest; var p := |pre|; var n := |sec.typeName|;
      var e := p + |SectionText(sec)|;
      && e == p + 7 + n + |sec.body| && e <= |s|
      && (forall j :: p <= j < p + 6 ==> !IsLineBreak(s[j]))
      && s[p + 6..p + 6 + n] == sec.typeName
      && s[p + 6 + n] == '\n'
      && s[p + 7 + n..e] == sec.body
      && s[e..] == rest
      && MatchAt(s, TypeToken, p)
  {
    var t := SectionText(sec);
    var s := pre + t + rest;
    var p := |pre|;
    var n := |sec.typeName|;
    SectionTextAt(sec);
    assert s[p..p + |t|] == t;
    assert s[p..p + |TypeToken|] == t[..|TypeToken|];
    assert s[p + 6..p + 6 + n] == t[6..6 + n];
    assert s[p + 7 + n..p + |t|] == t[7 + n..];
  }

  /** One pass of the splitter over a `#type` line at `p` whose name has no
      line break, with a section starting right after the line's single line
      break. */
  lemma StepReadsLine(s: string, p: nat, typeName: string, section: (string, Option<nat>), acc: ShaderSources)
    requires p + 7 + |typeName| < |s| < SizeTLimit
    requires forall j :: p <= j < p + 6 ==> !IsLineBreak(s[j])
    requires s[p + 6..p + 6 + |typeName|] == typeName
    requires forall i :: 0 <= i < |typeName| ==> !IsLineBreak(typeName[i])
    requires s[p + 6 + |typeName|] == '\n' && !IsLineBreak(s[p + 7 + |typeName|])
    requires SectionFrom(s, p + 7 + |typeName|) == section
    ensures Step(s, p, acc) == Success((acc[ShaderTypeFromString(typeName) := section.0], section.1))
  {
    var n := |typeName|;
    forall j | p <= j < p + 6 + n ensures !IsLineBreak(s[j]) {
      if j >= p + 6 {
        assert s[j] == s[p + 6..p + 6 + n][j - p - 6];
      }
    }
    FirstLineBreakAt(s, p, p + 6 + n);
    FirstNonBreakAt(s, p + 6 + n, p + 7 + n);
    assert Substr(s, p + 6, SizeTSub(p + 6 + n, p + 6)) == typeName;
  }

  /** A well-formed body placed at `start` and followed by nothing or by a
      `#type` token is exactly the section read from `start`. */
  lemma SectionIsBody(s: string, start: nat, body: string)
    requires start + |body| <= |s| && s[start..start + |body|] == body
    requires forall k :: !MatchAt(body, TypeToken, k)
    requires start + |body| == |s| || MatchAt(s, TypeToken, start + |body|)
    ensures SectionFrom(s, start)
      == (body, if start + |body| == |s| then None else Some(start + |body|))
  {
    var e := start + |body|;
    forall i | start <= i < e ensures !MatchAt(s, TypeToken, i) {
      NoTokenInBody(s, start, body, i);
    }
    if e == |s| {
      assert s[start..] == body;
      assert Find(s, TypeToken, start) == None;
    } else {
      FindAt(s, TypeToken, start, e);
    }
  }

  /** The `#type` line of a placed well-formed section meets what
      StepReadsLine needs. */
  lemma PlacedLine(pre: string, sec: Section, rest: string)
    requires WellFormedSection(sec)
    ensures |pre| + 7 + |sec.typeName| < |pre + SectionText(sec) + rest|
    ensures forall j :: |pre| <= j < |pre| + 6 ==> !IsLineBreak((pre + SectionText(sec) + rest)[j])
    ensures (pre + SectionText(sec) + rest)[|pre| + 6..|pre| + 6 + |sec.typeName|] == sec.typeName
    ensures (pre + SectionText(sec) + rest)[|pre| + 6 + |sec.typeName|] == '\n'
    ensures !IsLineBreak((pre + SectionText(sec) + rest)[|pre| + 7 + |sec.typeName|])
  {
    var t := SectionText(sec);
    var s := pre + t + rest;
    var p := |pre|;
    var n := |sec.typeName|;
    ComposedLayout(pre, sec, rest);
    assert s[p + 7 + n] == s[p + 7 + n..p + |t|][0] == sec.body[0];
  }

  /** The section the splitter reads after the `#type` line of a placed
      well-formed section is exactly its body. */
  lemma PlacedBody(pre: string, sec: Section, rest: string)
    requires WellFormedSection(sec)
    requires rest == "" || MatchAt(rest, TypeToken, 0)
    ensures SectionFrom(pre + SectionText(sec) + rest, |pre| + 7 + |sec.typeName|)
      == (sec.body, if rest == "" then None else Some(|pre| + |SectionText(sec)|))
  {
    var t := SectionText(sec);
    var s := pre + t + rest;
    var e := |pre| + |t|;
    ComposedLayout(pre, sec, rest);
    if rest != "" {
      assert s[e..e + |TypeToken|] == rest[..|TypeToken|];
    }
    SectionIsBody(s, |pre| + 7 + |sec.typeName|, sec.body);
  }

  /** One pass of the splitter over a well-formed section followed by nothing
      or by the next `#type` line reads exactly that section. */
  lemma StepReadsSection(pre: string, sec: Section, rest: string, acc: ShaderSources)
    requires WellFormedSection(sec)
    requires |pre + SectionText(sec) + rest| < SizeTLimit
    requires rest == "" || MatchAt(rest, TypeToken, 0)
    ensures var t := SectionText(sec);
      Step(pre + t + rest, |pre|, acc)
      == Success((acc[ShaderTypeFromString(sec.typeName) := sec.body],
                  if rest == "" then None else Some(|pre| + |t|)))
  {
    var s := pre + SectionText(sec) + rest;
    PlacedLine(pre, sec, rest);
    PlacedBody(pre, sec, rest);
    StepReadsLine(s, |pre|, sec.typeName, SectionFrom(s, |pre| + 7 + |sec.typeName|), acc);
  }

  /** A composed file starts with a `#type` token. */
  lemma ComposeStartsWithToken(secs: seq<Section>)
    requires secs != []
    ensures MatchAt(Compose(secs), TypeToken, 0)
  {
    var t := SectionText(secs[0]);
    var c := Compose(secs);
    assert c == t + Compose(secs[1..]);
    forall k | 0 <= k < |TypeToken| ensures c[k] == TypeToken[k] {
      assert c[k] == t[k];
    }
    assert c[..|TypeToken|] == TypeToken;
  }

  /** The splitter run from the first `#type` line of composed sections reads
      them all, in order. */
  lemma {:induction false} SectionsReadCompose(pre: string, secs: seq<Section>, acc: ShaderSources)
    requires |secs| > 0
    requires forall i :: 0 <= i < |secs| ==> WellFormedSection(secs[i])
    requires |pre + Compose(secs)| < SizeTLimit
    ensures Sections(pre + Compose(secs), |pre|, acc) == Success(Collect(secs, acc))
    decreases |secs|
  {
    var t := SectionText(secs[0]);
    var rest := Compose(secs[1..]);
    assert pre + Compose(secs) == pre + t + rest;
    if secs[1..] != [] {
      ComposeStartsWithToken(secs[1..]);
    }
    StepReadsSection(pre, secs[0], rest, acc);
    var acc' := acc[ShaderTypeFromString(secs[0].typeName) := secs[0].body];
    if secs[1..] != [] {
      assert pre + t + rest == (pre + t) + rest;
      SectionsReadCompose(pre + t, secs[1..], acc');
    }
  }

  /** Writing well-formed sections out and splitting the file gives back the
      stage map built from them in order (a later section of a stage wins). */
  lemma SplitCompose(secs: seq<Section>)
    requires forall i :: 0 <= i < |secs| ==> WellFormedSection(secs[i])
    requires |Compose(secs)| < SizeTLimit
    ensures SplitSource(Compose(secs)) == Success(Collect(secs, map[]))
  {
    if secs != [] {
      var s := Compose(secs);
      ComposeStartsWithToken(secs);
      FindAt(s, TypeToken, 0, 0);
      assert "" + s == s;
      SectionsReadCompose("", secs, map[]);
    }
  }

  /** A stage no section names keeps what it had. */
  lemma {:induction false} CollectKeepsOthers(secs: seq<Section>, acc: ShaderSources, k: nat)
    requires forall j :: 0 <= j < |secs| ==> StageOf(secs[j]) != k
    ensures k in Collect(secs, acc) <==> k in acc
    ensures k in acc ==> Collect(secs, acc)[k] == acc[k]
    decreases |secs|
  {
    if secs != [] {
      CollectKeepsOthers(secs[1..], acc[StageOf(secs[0]) := secs[0].body], k);
    }
  }

  /** The stages collected are those there were plus those the sections name. */
  lemma {:induction false} CollectStages(secs: seq<Section>, acc: ShaderSources)
    ensures Collect(secs, acc).Keys == acc.Keys + set j | 0 <= j < |secs| :: StageOf(secs[j])
    decreases |secs|
  {
    if secs != [] {
      var acc' := acc[StageOf(secs[0]) := secs[0].body];
      CollectStages(secs[1..], acc');
      var named := set j | 0 <= j < |secs| :: StageOf(secs[j]);
      var later := set j | 0 <= j < |secs| - 1 :: StageOf(secs[1..][j]);
      assert named == {StageOf(secs[0])} + later by {
        forall k | k in named ensures k in {StageOf(secs[0])} + later {
          var j :| 0 <= j < |secs| && StageOf(secs[j]) == k;
          if j > 0 {
            assert StageOf(secs[1..][j - 1]) == k;
          }
        }
      }
    }
  }

  /** The last section of a stage is the one kept for it: earlier sections of
      the same stage are overwritten. */
  lemma {:induction false} CollectLastWins(secs: seq<Section>, acc: ShaderSources, i: nat)
    requires i < |secs|
    requires forall j :: i < j < |secs| ==> StageOf(secs[j]) != StageOf(secs[i])
    ensures StageOf(secs[i]) in Collect(secs, acc)
    ensures Collect(secs, acc)[StageOf(secs[i])] == secs[i].body
    decreases |secs|
  {
    var acc' := acc[StageOf(secs[0]) := secs[0].body];
    if i == 0 {
      CollectKeepsOthers(secs[1..], acc', StageOf(secs[0]));
    } else {
      CollectLastWins(secs[1..], acc', i - 1);
    }
  }

  // ---------------------------------------------------------------------
  // The shader name the Shader constructor takes from the file path.

  predicate IsPathSeparator(c: char)
  {
    c == '/' || c == '\\'
  }

  /** `s.find_last_of("/\\")`. */
  function FindLastSeparator(s: string): (r: Option<nat>)
    ensures r.Some? ==> r.value < |s| && IsPathSeparator(s[r.value])
    ensures r.Some? ==> forall j :: r.value < j < |s| ==> !IsPathSeparator(s[j])
    ensures r.None? ==> forall j :: 0 <= j < |s| ==> !IsPathSeparator(s[j])
  {
    if s == [] then None
    else if IsPathSeparator(s[|s| - 1]) then Some(|s| - 1)
    else FindLastSeparator(s[..|s| - 1])
  }

  /** `s.rfind('.')`. */
  function FindLastDot(s: string): (r: Option<nat>)
    ensures r.Some? ==> r.value < |s| && s[r.value] == '.'
    ensures r.Some? ==> forall j :: r.value < j < |s| ==> s[j] != '.'
    ensures r.None? ==> forall j :: 0 <= j < |s| ==> s[j] != '.'
  {
    if s == [] then None
    else if s[|s| - 1] == '.' then Some(|s| - 1)
    else FindLastDot(s[..|s| - 1])
  }

  /** The name the Shader constructor stores: from just after the last path
      separator (or the start), as many characters as there are up to the
      last dot, the count being a size_t difference. */
  function ShaderName(filePath: string): string
  {
    var lastSlash := NameStart(filePath);
    var lastDot := FindLastDot(filePath);
    var count := if lastDot.None? then |filePath| - lastSlash else SizeTSub(lastDot.value, lastSlash);
    Substr(filePath, lastSlash, count)
  }

  /** Where the file name starts: after the last separator, or at 0. */
  function NameStart(filePath: string): (start: nat)
    ensures start <= |filePath| && (start == 0 || IsPathSeparator(filePath[start - 1]))
    ensures forall j :: start <= j < |filePath| ==> !IsPathSeparator(filePath[j])
  {
    var lastSlash := FindLastSeparator(filePath);
    if lastSlash.None? then 0 else lastSlash.value + 1
  }

  /** The file name: what follows the last path separator. */
  function FileName(path: string): string
  {
    if path == [] then []
    else if IsPathSeparator(path[|path| - 1]) then []
    else FileName(path[..|path| - 1]) + [path[|path| - 1]]
  }

  /** A file name without its extension: the part before the last dot, or all
      of it when it has no dot. */
  function Stem(name: string): string
  {
    if name == [] then []
    else if name[|name| - 1] == '.' then name[..|name| - 1]
    else if '.' in name[..|name| - 1] then Stem(name[..|name| - 1])
    else name
  }

  lemma {:induction false} FileNameFrom(path: string, start: nat)
    requires start <= |path| && (start == 0 || IsPathSeparator(path[start - 1]))
    requires forall j :: start <= j < |path| ==> !IsPathSeparator(path[j])
    ensures FileName(path) == path[start..]
    decreases |path|
  {
    if |path| > start {
      var init := path[..|path| - 1];
      FileNameFrom(init, start);
      assert init[start..] + [path[|path| - 1]] == path[start..];
    }
  }

  lemma {:induction false} StemAtDot(name: string, d: nat)
    requires d < |name| && name[d] == '.'
    requires forall j :: d < j < |name| ==> name[j] != '.'
    ensures Stem(name) == name[..d]
    decreases |name|
  {
    if d < |name| - 1 {
      var init := name[..|name| - 1];
      assert init[d] == '.';
      StemAtDot(init, d);
      assert init[..d] == name[..d];
    }
  }

  lemma StemWithoutDot(name: string)
    requires forall j :: 0 <= j < |name| ==> name[j] != '.'
    ensures Stem(name) == name
  {
    if name != [] {
      assert '.' !in name[..|name| - 1];
    }
  }

  /** With the last dot inside the file name, the stem ends at it. */
  lemma StemBeforeDot(path: string, start: nat, d: nat)
    requires start <= d < |path| && path[d] == '.'
    requires forall j :: d < j < |path| ==> path[j] != '.'
    ensures Stem(path[start..]) == path[start..d]
  {
    var name := path[start..];
    StemAtDot(name, d - start);
    assert name[..d - start] == path[start..d];
  }

  /** The constructor's count in the three cases: up to the last dot when it
      lies in the file name; the whole file name when there is no dot, or when
      the dot lies before the name and the size_t count wraps around (a
      std::string is shorter than 2^64). */
  lemma ShaderNameCases(filePath: string)
    requires |filePath| < SizeTLimit
    ensures var start := NameStart(filePath); var d := FindLastDot(filePath);
      ShaderName(filePath) == if d.Some? && d.value >= start then filePath[start..d.value] else filePath[start..]
  {
  }

  /** The constructor's index arithmetic takes the stem of the file name. */
  lemma ShaderNameIsStem(filePath: string)
    requires |filePath| < SizeTLimit
    ensures ShaderName(filePath) == Stem(FileName(filePath))
    ensures forall i :: 0 <= i < |ShaderName(filePath)| ==> !IsPathSeparator(ShaderName(filePath)[i])
  {
    var start := NameStart(filePath);
    FileNameFrom(filePath, start);
    ShaderNameCases(filePath);
    var d := FindLastDot(filePath);
    if d.Some? && d.value >= start {
      StemBeforeDot(filePath, start, d.value);
    } else {
      StemWithoutDot(filePath[start..]);
    }
  }

  /** The model shader Renderer3D loads from "Assets/shaders/model.glsl"
      (Renderer3D.cpp:409) is named "model". */
  lemma ModelShaderName()
    ensures ShaderName("Assets/shaders/model.glsl") == "model"
  {
    var path := "Assets/shaders/model.glsl";
    ShaderNameIsStem(path);
    FileNameFrom(path, 15);
    StemBeforeDot(path, 15, 20);
    assert path[15..20] == "model";
  }

  // ---------------------------------------------------------------------
  // A `#type` line with no section text after it.

  /** As written, a file whose last `#type` line has nothing after it (here
      "#type vertex" and a line break) makes `substr(npos)` throw. */
  lemma TrailingHeaderThrows()
    ensures SplitSource("#type vertex\n") == Failure(OutOfRange)
  {
    var s := "#type vertex\n";
    assert s[0..5] == TypeToken;
    FindAt(s, TypeToken, 0, 0);
    FirstLineBreakAt(s, 0, 12);
    assert FindFirstNonBreak(s, 12) == None;
  }

  /** One pass of the splitter as evidently intended: a `#type` line that
      ends the file names a stage with an empty section instead of throwing. */
  function StepChecked(source: string, pos: nat, acc: ShaderSources): (r: (ShaderSources, Option<nat>))
    ensures r.1.Some? ==> pos < r.1.value <= |source|
  {
    var begin := pos + |TypeToken| + 1;
    var eol := FindFirstLineBreak(source, pos);
    var typeName :=
      if begin > |source| then ""
      else if eol.None? then source[begin..]
      else Substr(source, begin, SizeTSub(eol.value, begin));
    var nextLinePos := if eol.None? then None else FindFirstNonBreak(source, eol.value);
    if nextLinePos.None? then (acc[ShaderTypeFromString(typeName) := ""], None)
    else
      var section := SectionFrom(source, nextLinePos.value);
      (acc[ShaderTypeFromString(typeName) := section.0], section.1)
  }

  function SectionsChecked(source: string, pos: nat, acc: ShaderSources): ShaderSources
    decreases |source| - pos
  {
    var (acc', next) := StepChecked(source, pos, acc);
    if next.None? then acc' else SectionsChecked(source, next.value, acc')
  }

  /** The corrected splitter: never fails. */
  function SplitSourceChecked(source: string): ShaderSources
  {
    var pos := Find(source, TypeToken, 0);
    if pos.None? then map[] else SectionsChecked(source, pos.value, map[])
  }

  lemma {:induction false} SectionsCheckedAgrees(source: string, pos: nat, acc: ShaderSources)
    ensures Sections(source, pos, acc).Success? ==> SectionsChecked(source, pos, acc) == Sections(source, pos, acc).value
    decreases |source| - pos
  {
    var st := Step(source, pos, acc);
    if st.Success? {
      assert StepChecked(source, pos, acc) == st.value;
      if st.value.1.Some? {
        SectionsCheckedAgrees(source, st.value.1.value, st.value.0);
      }
    }
  }

  /** The corrected splitter changes nothing where the source succeeds, and
      gives a trailing `#type` line an empty section. */
  lemma SplitSourceCheckedAgrees(source: string)
    ensures SplitSource(source).Success? ==> SplitSourceChecked(source) == SplitSource(source).value
    ensures SplitSourceChecked("#type vertex\n") == map[GlVertexShader := ""]
  {
    var pos := Find(source, TypeToken, 0);
    if pos.Some? {
      SectionsCheckedAgrees(source, pos.value, map[]);
    }
    var s := "#type vertex\n";
    assert s[0..5] == TypeToken;
    FindAt(s, TypeToken, 0, 0);
    FirstLineBreakAt(s, 0, 12);
    assert FindFirstNonBreak(s, 12) == None;
    assert s[6..12] == "vertex";
    assert StepChecked(s, 0, map[]) == (map[GlVertexShader := ""], None);
  }
}
