/**
  The source rewrite that makes every pattern's fragment shader draw only
  inside the text: a header declaring the mask sampler is inserted after the
  precision line (or on top), and the opening of `main` is replaced by a
  prologue that samples the mask and discards the fragment where the mask's
  red channel is below 0.1.

  The opening of `main` is found with the regular expression
  `void\s+main\s*\(\s*\)\s*{` (at least one blank after `void`, any number
  elsewhere), leftmost match. Each `\s` run is followed by a character that
  is not a blank, so the greedy match is the only one; `MatchMain` computes
  it directly and `MainShape` describes it independently.
 */
module MaskShader {
  import opened Wrappers
  import opened JsStrings

  const Precision: string := "precision highp float;"

  /** The declarations inserted after the precision line. */
  const Header: string := HeaderVarying + HeaderUniform
  const HeaderVarying: string := "\n    varying vec2 vUv;"
  const HeaderUniform: string := "\n    uniform sampler2D u_mask;\n  "

  /** The replacement for the opening of `main`: sample the mask, discard outside the text. */
  const MainInjection: string :=
    "\n    void main() {\n      // 1. Sample the text mask\n      vec4 mask = texture2D(u_mask, vUv);\n"
    + "      // 2. Discard pixels outside the text to reveal the white background\n"
    + "      if(mask.r < 0.1) discard;\n  "

  // ---- the `void main() {` matcher ----

  /** The first position at or after `a` that does not hold a blank (or the end). */
  function SkipSpaces(w: string, a: nat): (b: nat)
    requires a <= |w|
    decreases |w| - a
    ensures a <= b <= |w|
  {
    if a == |w| || !IsSpace(w[a]) then a else SkipSpaces(w, a + 1)
  }

  /** Positions `a` up to `b` hold blanks only. */
  predicate Blanks(w: string, a: nat, b: nat)
  {
    a <= b <= |w| && forall x :: a <= x < b ==> IsSpace(w[x])
  }

  lemma {:induction false} SkipSpacesSound(w: string, a: nat)
    requires a <= |w|
    decreases |w| - a
    ensures Blanks(w, a, SkipSpaces(w, a))
    ensures SkipSpaces(w, a) == |w| || !IsSpace(w[SkipSpaces(w, a)])
  {
    if a < |w| && IsSpace(w[a]) {
      SkipSpacesSound(w, a + 1);
    }
  }

  /** A run of blanks followed by a non-blank is exactly what `SkipSpaces` skips. */
  lemma {:induction false} SkipSpacesComplete(w: string, a: nat, b: nat)
    requires Blanks(w, a, b) && b < |w| && !IsSpace(w[b])
    decreases b - a
    ensures SkipSpaces(w, a) == b
  {
    if a < b {
      SkipSpacesComplete(w, a + 1, b);
    }
  }

  /**
    Where the parts of a match lie: `main` starts at `j`, `(` is at `k`,
    `)` at `l` and `{` at `m`; the match is `w[..m + 1]`.
   */
  datatype MainSpan = MainSpan(j: nat, k: nat, l: nat, m: nat)

  /** The regular expression `void\s+main\s*\(\s*\)\s*{` matches `w[..sp.m + 1]`. */
  predicate MainShape(w: string, sp: MainSpan)
  {
    4 < sp.j && sp.j + 4 <= sp.k && sp.k < sp.l && sp.l < sp.m && sp.m < |w| &&
    w[0] == 'v' && w[1] == 'o' && w[2] == 'i' && w[3] == 'd' && Blanks(w, 4, sp.j) &&
    w[sp.j] == 'm' && w[sp.j + 1] == 'a' && w[sp.j + 2] == 'i' && w[sp.j + 3] == 'n' &&
    Blanks(w, sp.j + 4, sp.k) && w[sp.k] == '(' && Blanks(w, sp.k + 1, sp.l) &&
    w[sp.l] == ')' && Blanks(w, sp.l + 1, sp.m) && w[sp.m] == '{'
  }

  /** The match of `void\s+main\s*\(\s*\)\s*{` at the start of `w`, if there is one. */
  function MatchMain(w: string): (r: Option<MainSpan>)
    ensures r.Some? ==> r.value.m < |w|
  {
    if |w| < 4 || w[0] != 'v' || w[1] != 'o' || w[2] != 'i' || w[3] != 'd' then None
    else
      var j := SkipSpaces(w, 4);
      if j == 4 || j + 4 > |w| || w[j] != 'm' || w[j + 1] != 'a' || w[j + 2] != 'i' || w[j + 3] != 'n' then None
      else
        var k := SkipSpaces(w, j + 4);
        if k == |w| || w[k] != '(' then None
        else
          var l := SkipSpaces(w, k + 1);
          if l == |w| || w[l] != ')' then None
          else
            var m := SkipSpaces(w, l + 1);
            if m == |w| || w[m] != '{' then None
            else Some(MainSpan(j, k, l, m))
  }

  /** What the matcher finds is a match. */
  lemma MatchMainSound(w: string)
    requires MatchMain(w).Some?
    ensures MainShape(w, MatchMain(w).value)
  {
    var sp := MatchMain(w).value;
    MatchMainSteps(w);
    SkipSpacesSound(w, 4);
    SkipSpacesSound(w, sp.j + 4);
    SkipSpacesSound(w, sp.k + 1);
    SkipSpacesSound(w, sp.l + 1);
  }

  /** The matcher's steps: `void`, then each part where the preceding blanks end. */
  lemma MatchMainSteps(w: string)
    requires MatchMain(w).Some?
    ensures var sp := MatchMain(w).value;
      4 <= |w| && w[0] == 'v' && w[1] == 'o' && w[2] == 'i' && w[3] == 'd' &&
      sp.j == SkipSpaces(w, 4) && sp.j != 4 && sp.j + 4 <= |w| &&
      w[sp.j] == 'm' && w[sp.j + 1] == 'a' && w[sp.j + 2] == 'i' && w[sp.j + 3] == 'n' &&
      sp.k == SkipSpaces(w, sp.j + 4) && sp.k < |w| && w[sp.k] == '(' &&
      sp.l == SkipSpaces(w, sp.k + 1) && sp.l < |w| && w[sp.l] == ')' &&
      sp.m == SkipSpaces(w, sp.l + 1) && sp.m < |w| && w[sp.m] == '{'
  {
  }

  /** Every match is the one the matcher finds: the match at a position is unique. */
  lemma MatchMainComplete(w: string, sp: MainSpan)
    requires MainShape(w, sp)
    ensures MatchMain(w) == Some(sp)
  {
    SkipSpacesComplete(w, 4, sp.j);
    SkipSpacesComplete(w, sp.j + 4, sp.k);
    SkipSpacesComplete(w, sp.k + 1, sp.l);
    SkipSpacesComplete(w, sp.l + 1, sp.m);
    StepsMatch(w, sp);
  }

  /** Conversely, steps that all succeed make the matcher report their positions. */
  lemma StepsMatch(w: string, sp: MainSpan)
    requires 4 <= |w| && w[0] == 'v' && w[1] == 'o' && w[2] == 'i' && w[3] == 'd'
    requires sp.j == SkipSpaces(w, 4) && sp.j != 4 && sp.j + 4 <= |w|
    requires w[sp.j] == 'm' && w[sp.j + 1] == 'a' && w[sp.j + 2] == 'i' && w[sp.j + 3] == 'n'
    requires sp.k == SkipSpaces(w, sp.j + 4) && sp.k < |w| && w[sp.k] == '('
    requires sp.l == SkipSpaces(w, sp.k + 1) && sp.l < |w| && w[sp.l] == ')'
    requires sp.m == SkipSpaces(w, sp.l + 1) && sp.m < |w| && w[sp.m] == '{'
    ensures MatchMain(w) == Some(sp)
  {
  }

  /** The characters a match can contain. */
  predicate InMatchAlphabet(c: char)
  {
    IsSpace(c) || c == 'v' || c == 'o' || c == 'i' || c == 'd' || c == 'm' || c == 'a' || c == 'n' ||
    c == '(' || c == ')' || c == '{'
  }

  /** A match reads only its own characters, all from the match alphabet. */
  lemma MatchLocal(w: string, u: string)
    requires MatchMain(w).Some?
    requires MatchMain(w).value.m < |u| && w[..MatchMain(w).value.m + 1] == u[..MatchMain(w).value.m + 1]
    ensures MatchMain(u) == MatchMain(w)
    ensures forall x :: 0 <= x <= MatchMain(w).value.m ==> InMatchAlphabet(w[x])
  {
    var sp := MatchMain(w).value;
    MatchMainSound(w);
    forall x | 0 <= x <= sp.m
      ensures w[x] == u[x]
    {
      assert w[..sp.m + 1][x] == u[..sp.m + 1][x];
    }
    assert MainShape(u, sp);
    MatchMainComplete(u, sp);
  }

  /** The match, if any, starting at position `i` of `s`. */
  function MatchAt(s: string, i: nat): Option<MainSpan>
    requires i <= |s|
  {
    MatchMain(s[i..])
  }

  /** The leftmost position at or after `from` where the expression matches. */
  function FirstMain(s: string, from: nat): (r: Option<nat>)
    requires from <= |s|
    decreases |s| - from
    ensures r.Some? ==> from <= r.value <= |s| && MatchAt(s, r.value).Some?
    ensures r.Some? ==> forall x :: from <= x < r.value ==> MatchAt(s, x).None?
    ensures r.None? ==> forall x :: from <= x <= |s| ==> MatchAt(s, x).None?
  {
    if MatchAt(s, from).Some? then Some(from)
    else if from == |s| then None
    else FirstMain(s, from + 1)
  }

  // ---- the rewrite ----

  /**
    Where the header goes and what is inserted there: after the first
    precision line, a line break and the header; with no precision line, the
    header and a line break on top.
   */
  function HeaderSite(s: string): (r: (nat, string))
    ensures r.0 <= |s|
  {
    match IndexOf(s, Precision, 0)
    case Some(i) => (i + |Precision|, "\n" + Header)
    case None => (0, Header + "\n")
  }

  /** The first step: the precision line, when present, is followed by the header. */
  function InjectHeader(s: string): string
  {
    var (a, x) := HeaderSite(s);
    s[..a] + x + s[a..]
  }

  /** The second step: the leftmost match, if any, becomes the mask prologue. */
  function InjectMain(s: string): string
  {
    match FirstMain(s, 0)
    case None => s
    case Some(i) => s[..i] + MainInjection + s[i + MatchAt(s, i).value.m + 1..]
  }

  /** `modifyShaderWithMask`. */
  function ModifyShaderWithMask(src: string): string
  {
    InjectMain(InjectHeader(src))
  }

  // ---- properties of the rewrite ----

  /** The header is inserted right after the first precision line, or on top; the source is otherwise kept. */
  lemma InjectHeaderPlacement(s: string)
    ensures var r := InjectHeader(s);
      match IndexOf(s, Precision, 0)
      case Some(i) =>
        (forall j :: 0 <= j < i ==> !OccursAt(s, Precision, j)) &&
        r == s[..i + |Precision|] + "\n" + Header + s[i + |Precision|..]
      case None => !Includes(s, Precision) && r == Header + "\n" + s
  {
  }

  /** No `v` directly followed by `o`, and no `v` at the end. */
  predicate VoFree(x: string)
  {
    forall p :: 0 <= p < |x| && x[p] == 'v' ==> p + 1 < |x| && x[p + 1] != 'o'
  }

  lemma VoFreeAppend(x: string, y: string)
    requires VoFree(x) && VoFree(y)
    ensures VoFree(x + y)
  {
    forall p | 0 <= p < |x + y| && (x + y)[p] == 'v'
      ensures p + 1 < |x + y| && (x + y)[p + 1] != 'o'
    {
      if p < |x| {
        assert x[p] == 'v';
      } else {
        assert y[p - |x|] == 'v';
      }
    }
  }

  /** Neither inserted text can hold the start of a match. */
  lemma InsertedTextsVoFree()
    ensures VoFree("\n" + Header) && VoFree(Header + "\n")
  {
    assert VoFree(HeaderVarying) && VoFree(HeaderUniform) && VoFree("\n");
    VoFreeAppend(HeaderVarying, HeaderUniform);
    VoFreeAppend("\n", Header);
    VoFreeAppend(Header, "\n");
  }

  /** Where a position of `s` lands once `x` is inserted at `a`. */
  function Shift(q: nat, a: nat, x: string): nat
  {
    if q < a then q else q + |x|
  }

  /**
    Inserting a text with no `vo` after a character that cannot be part of a
    match creates no match and destroys none: matches before the insertion
    point stay where they are, matches after it move by the inserted length.
   */
  lemma InsertionKeepsMatches(s: string, a: nat, x: string, q: nat)
    requires a <= |s| && (a == 0 || !InMatchAlphabet(s[a - 1])) && VoFree(x)
    requires q <= |s|
    ensures var r := s[..a] + x + s[a..];
      MatchAt(r, Shift(q, a, x)) == MatchAt(s, q)
  {
    var r := s[..a] + x + s[a..];
    if q < a {
      if MatchAt(s, q).Some? {
        LocalBefore(s, r, a, q);
      } else if MatchAt(r, q).Some? {
        LocalBefore(r, s, a, q);
      }
    } else {
      assert r[q + |x|..] == s[q..];
    }
  }

  /** A match starting before `a` in `s` ends before `a - 1`, so only the shared prefix is read. */
  lemma LocalBefore(s: string, u: string, a: nat, q: nat)
    requires q < a <= |s| && a <= |u| && s[..a] == u[..a] && !InMatchAlphabet(s[a - 1])
    requires MatchAt(s, q).Some?
    ensures MatchAt(u, q) == MatchAt(s, q)
  {
    var w := s[q..];
    var sp := MatchMain(w).value;
    MatchMainSound(w);
    if q + sp.m >= a - 1 {
      assert false;
    }
    assert w[..sp.m + 1] == u[q..][..sp.m + 1] by {
      assert w[..sp.m + 1] == s[q..q + sp.m + 1] == s[..a][q..q + sp.m + 1];
      assert u[q..][..sp.m + 1] == u[q..q + sp.m + 1] == u[..a][q..q + sp.m + 1];
    }
    MatchLocal(w, u[q..]);
  }

  /** No match starts inside an inserted text with no `vo`. */
  lemma NoMatchInInserted(s: string, a: nat, x: string, q: nat)
    requires a <= |s| && VoFree(x) && a <= q < a + |x|
    ensures MatchAt(s[..a] + x + s[a..], q).None?
  {
    var r := s[..a] + x + s[a..];
    if MatchAt(r, q).Some? {
      var w := r[q..];
      MatchMainSound(w);
      assert false;
    }
  }

  /** Matches in `s` with `x` inserted at `a`, position by position. */
  lemma MatchAtInserted(s: string, a: nat, x: string, y: nat)
    requires a <= |s| && (a == 0 || !InMatchAlphabet(s[a - 1])) && VoFree(x)
    requires y <= |s| + |x|
    ensures y < a ==> MatchAt(s[..a] + x + s[a..], y) == MatchAt(s, y)
    ensures a <= y < a + |x| ==> MatchAt(s[..a] + x + s[a..], y).None?
    ensures a + |x| <= y ==> MatchAt(s[..a] + x + s[a..], y) == MatchAt(s, y - |x|)
  {
    if y < a {
      InsertionKeepsMatches(s, a, x, y);
    } else if y < a + |x| {
      NoMatchInInserted(s, a, x, y);
    } else {
      InsertionKeepsMatches(s, a, x, y - |x|);
    }
  }

  /** The precision line ends in `;`, which no match contains. */
  lemma HeaderSiteSafe(s: string)
    ensures var (a, x) := HeaderSite(s); (a == 0 || !InMatchAlphabet(s[a - 1])) && VoFree(x)
  {
    InsertedTextsVoFree();
    match IndexOf(s, Precision, 0)
    case Some(i) =>
      assert s[i..i + |Precision|] == Precision;
      assert s[i + |Precision| - 1] == Precision[|Precision| - 1] == ';';
    case None =>
  }

  /** Inserting such a text into a source with no match leaves none. */
  lemma NoMainInserted(s: string, a: nat, x: string)
    requires a <= |s| && (a == 0 || !InMatchAlphabet(s[a - 1])) && VoFree(x)
    requires FirstMain(s, 0).None?
    ensures FirstMain(s[..a] + x + s[a..], 0).None?
  {
    var r := s[..a] + x + s[a..];
    forall y | 0 <= y <= |r|
      ensures MatchAt(r, y).None?
    {
      MatchAtInserted(s, a, x, y);
    }
  }

  /** Inserting such a text moves the leftmost match to its shifted position. */
  lemma FirstMainShifted(s: string, a: nat, x: string, q: nat)
    requires a <= |s| && (a == 0 || !InMatchAlphabet(s[a - 1])) && VoFree(x)
    requires FirstMain(s, 0) == Some(q)
    ensures FirstMain(s[..a] + x + s[a..], 0) == Some(Shift(q, a, x))
  {
    var r := s[..a] + x + s[a..];
    var t := Shift(q, a, x);
    MatchAtInserted(s, a, x, t);
    forall y | 0 <= y < t
      ensures MatchAt(r, y).None?
    {
      MatchAtInserted(s, a, x, y);
      if y < a {
        assert y < q;
      } else if a + |x| <= y {
        assert y - |x| < q;
      }
    }
    FirstMainUnique(r, t);
  }

  /** The leftmost match is the match with none before it. */
  lemma FirstMainUnique(r: string, t: nat)
    requires t <= |r| && MatchAt(r, t).Some?
    requires forall y :: 0 <= y < t ==> MatchAt(r, y).None?
    ensures FirstMain(r, 0) == Some(t)
  {
    var f := FirstMain(r, 0);
    assert f.Some? && f.value <= t;
  }

  /**
    Inserting the header moves the opening of `main` but does not change which
    one is found: the leftmost match after the first step is the leftmost
    match of the original source, shifted past the header when it lies after it.
   */
  lemma HeaderKeepsFirstMain(s: string)
    ensures var (a, x) := HeaderSite(s);
      FirstMain(InjectHeader(s), 0) ==
        match FirstMain(s, 0)
        case None => None
        case Some(q) => Some(Shift(q, a, x))
  {
    var (a, x) := HeaderSite(s);
    HeaderSiteSafe(s);
    match FirstMain(s, 0)
    case None => NoMainInserted(s, a, x);
    case Some(q) => FirstMainShifted(s, a, x, q);
  }

  /**
    The whole rewrite: a source with no opening of `main` gets only the header,
    and no discard; otherwise the prologue stands exactly where the original's
    leftmost `void main() {` ended up, the text before it is unchanged, and
    the text after that opening (later openings included) is kept verbatim.
   */
  lemma MaskPrologueIffMain(s: string)
    ensures FirstMain(s, 0).None? ==> ModifyShaderWithMask(s) == InjectHeader(s)
    ensures FirstMain(s, 0).Some? ==>
      var (a, x) := HeaderSite(s);
      var i := Shift(FirstMain(s, 0).value, a, x);
      MatchAt(InjectHeader(s), i).Some? &&
      OccursAt(ModifyShaderWithMask(s), MainInjection, i) &&
      ModifyShaderWithMask(s)[..i] == InjectHeader(s)[..i] &&
      ModifyShaderWithMask(s)[i + |MainInjection|..] == InjectHeader(s)[i + MatchAt(InjectHeader(s), i).value.m + 1..]
  {
    HeaderKeepsFirstMain(s);
    var h := InjectHeader(s);
    if FirstMain(s, 0).Some? {
      var i := FirstMain(h, 0).value;
      var r := ModifyShaderWithMask(s);
      assert r == h[..i] + MainInjection + h[i + MatchAt(h, i).value.m + 1..];
      assert r[i..i + |MainInjection|] == MainInjection;
      assert r[..i] == h[..i];
      assert r[i + |MainInjection|..] == h[i + MatchAt(h, i).value.m + 1..];
    }
  }
}
