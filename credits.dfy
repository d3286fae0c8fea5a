/**
  The credits panel: the credits text is cut into entries (one per non-blank
  line, trimmed), and each entry is scanned for inline links of the form
  `[label](href)`, where the label is non-empty and has no `]` and the href
  is non-empty and has no `)` (a simplified form of the inline links of
  section 6.3 of the CommonMark specification, which unlike CommonMark also
  accepts spaces in the href and backslashes before `]`), and split into
  plain and link parts.
 */
module Credits {
  import opened Wrappers
  import opened JsStrings

  // ---- finding one link ----

  /** The first position at or after `from` holding `c`. */
  function NextChar(s: string, c: char, from: nat): (r: Option<nat>)
    decreases |s| - from
    ensures r.Some? ==> from <= r.value < |s|
  {
    if from >= |s| then None
    else if s[from] == c then Some(from)
    else NextChar(s, c, from + 1)
  }

  /** The position found holds `c` and nothing before it from `from` does. */
  lemma {:induction false} NextCharSound(s: string, c: char, from: nat)
    decreases |s| - from
    ensures var r := NextChar(s, c, from);
      r.Some? ==> s[r.value] == c && c !in s[from..r.value]
  {
    if from < |s| && s[from] != c {
      NextCharSound(s, c, from + 1);
      var r := NextChar(s, c, from + 1);
      if r.Some? {
        assert s[from..r.value] == [s[from]] + s[from + 1..r.value];
      }
    }
  }

  /** The search stops at the first `c`: one preceded only by other characters is the one found. */
  lemma {:induction false} NextCharFinds(s: string, c: char, from: nat, k: nat)
    requires from <= k < |s| && s[k] == c && c !in s[from..k]
    decreases k - from
    ensures NextChar(s, c, from) == Some(k)
  {
    if from < k {
      assert s[from] == s[from..k][0];
      assert s[from + 1..k] == s[from..k][1..];
      NextCharFinds(s, c, from + 1, k);
    }
  }

  /** A link occupying `s[start..end + 1]`: `[` at `start`, `]` at `close`, `(` right after it and `)` at `end`. */
  datatype LinkMatch = LinkMatch(start: nat, close: nat, end: nat)

  /** Where the three delimiters of a match can lie in a string of length `n`: the label and the destination are not empty. */
  predicate Spans(m: LinkMatch, n: nat)
  {
    m.start + 1 < m.close && m.close + 2 < m.end < n
  }

  /** The shape of a link in `s` as the pattern requires it: a non-empty label without `]`, a non-empty destination without `)`. */
  predicate IsLink(s: string, m: LinkMatch)
  {
    Delimited(s, m) && ']' !in s[m.start + 1..m.close] && ')' !in s[m.close + 2..m.end]
  }

  /** The four delimiters of a link stand where the match puts them. */
  predicate Delimited(s: string, m: LinkMatch)
  {
    Spans(m, |s|) &&
    s[m.start] == '[' && s[m.close] == ']' && s[m.close + 1] == '(' && s[m.end] == ')'
  }

  /**
    The pattern tried at position `i`. The label runs to the first `]` and
    the destination to the first `)`: neither class admits its closing
    character, so no shorter run can be followed by it.
   */
  function LinkAt(s: string, i: nat): (r: Option<LinkMatch>)
    ensures r.Some? ==> r.value.start == i && Spans(r.value, |s|)
  {
    if i < |s| && s[i] == '[' then
      match NextChar(s, ']', i + 1)
      case None => None
      case Some(j) =>
        if j > i + 1 && j + 1 < |s| && s[j + 1] == '(' then
          match NextChar(s, ')', j + 2)
          case None => None
          case Some(k) =>
            if k > j + 2 then Some(LinkMatch(i, j, k))
            else None
        else None
    else None
  }

  /** What the pattern matches at `i` is a link starting at `i`. */
  lemma LinkAtSound(s: string, i: nat)
    ensures LinkAt(s, i).Some? ==> IsLink(s, LinkAt(s, i).value)
  {
    if LinkAt(s, i).Some? {
      NextCharSound(s, ']', i + 1);
      NextCharSound(s, ')', LinkAt(s, i).value.close + 2);
    }
  }

  /** The pattern finds every link starting at `i`. */
  lemma LinkAtComplete(s: string, m: LinkMatch)
    requires IsLink(s, m)
    ensures LinkAt(s, m.start) == Some(m)
  {
    NextCharFinds(s, ']', m.start + 1, m.close);
    NextCharFinds(s, ')', m.close + 2, m.end);
  }

  /** `regex.exec` from `lastIndex`: the leftmost link starting at or after `from`. */
  function FindLink(s: string, from: nat): (r: Option<LinkMatch>)
    decreases |s| - from
    ensures r.Some? ==> from <= r.value.start && Spans(r.value, |s|)
  {
    if from >= |s| then None
    else match LinkAt(s, from)
      case Some(m) => Some(m)
      case None => FindLink(s, from + 1)
  }

  /** What the search finds is the pattern's match at that position, so a link. */
  lemma {:induction false} FindLinkSound(s: string, from: nat)
    decreases |s| - from
    ensures var r := FindLink(s, from);
      r.Some? ==> LinkAt(s, r.value.start) == r && IsLink(s, r.value)
  {
    if from < |s| {
      if LinkAt(s, from).Some? {
        LinkAtSound(s, from);
      } else {
        FindLinkSound(s, from + 1);
      }
    }
  }

  /** The match found is the leftmost one: no link starts between `from` and it, and none at all when nothing is found. */
  lemma {:induction false} FindLinkLeftmost(s: string, from: nat, m: LinkMatch)
    requires from <= m.start && IsLink(s, m)
    decreases |s| - from
    ensures FindLink(s, from).Some? && FindLink(s, from).value.start <= m.start
  {
    LinkAtComplete(s, m);
    if from < m.start && LinkAt(s, from).None? {
      FindLinkLeftmost(s, from + 1, m);
    }
  }

  // ---- the parts of an entry ----

  datatype Part = Plain(text: string) | Link(caption: string, href: string)

  /** The markup a part stands for. */
  function Markup(p: Part): string
  {
    match p
    case Plain(t) => t
    case Link(caption, href) => "[" + caption + "](" + href + ")"
  }

  /** The parts written out one after the other. */
  function Render(ps: seq<Part>): string
  {
    if |ps| == 0 then "" else Markup(ps[0]) + Render(ps[1..])
  }

  /** The link part a match stands for. */
  function LinkPart(s: string, m: LinkMatch): Part
    requires Spans(m, |s|)
  {
    Link(s[m.start + 1..m.close], s[m.close + 2..m.end])
  }

  /** The parts of `s[from..]`: plain text before each link when there is any, the link, and the plain rest. */
  function Tokenize(s: string, from: nat): seq<Part>
    requires from <= |s|
    decreases |s| - from
  {
    match FindLink(s, from)
    case None => if from < |s| then [Plain(s[from..])] else []
    case Some(m) =>
      (if m.start > from then [Plain(s[from..m.start])] else []) + [LinkPart(s, m)] + Tokenize(s, m.end + 1)
  }

  /** What a well-formed part looks like: plain text is never empty; labels and destinations are non-empty and free of their closing character. */
  predicate GoodPart(p: Part)
  {
    match p
    case Plain(t) => t != []
    case Link(caption, href) => caption != [] && ']' !in caption && href != [] && ')' !in href
  }

  lemma {:induction false} RenderAppend(a: seq<Part>, b: seq<Part>)
    decreases |a|
    ensures Render(a + b) == Render(a) + Render(b)
  {
    if a == [] {
      assert a + b == b;
    } else {
      assert (a + b)[1..] == a[1..] + b;
      RenderAppend(a[1..], b);
    }
  }

  /** A link part's markup is exactly the text the match covers. */
  lemma LinkMarkup(s: string, m: LinkMatch)
    requires Delimited(s, m)
    ensures Markup(LinkPart(s, m)) == s[m.start..m.end + 1]
  {
    var a, b, c, d, e := m.start, m.start + 1, m.close, m.close + 2, m.end;
    var x := Markup(LinkPart(s, m));
    var y := s[a..e + 1];
    assert x == "[" + s[b..c] + "](" + s[d..e] + ")";
    forall i | 0 <= i < |x|
      ensures x[i] == y[i]
    {
      if 0 < i < c - a {
        assert x[i] == s[b..c][i - 1];
      } else if d - a <= i < e - a {
        assert x[i] == s[d..e][i - (d - a)];
      }
    }
  }

  /** Adjacent slices join into one. */
  lemma SliceCat(s: string, a: nat, b: nat, c: nat)
    requires a <= b <= c <= |s|
    ensures s[a..c] == s[a..b] + s[b..c]
  {
  }

  /** A suffix is a slice followed by the suffix after it. */
  lemma SuffixCat(s: string, a: nat, b: nat)
    requires a <= b <= |s|
    ensures s[a..] == s[a..b] + s[b..]
  {
  }

  /** The plain part before a match, if the match does not start right at `from`. */
  function Before(s: string, from: nat, m: LinkMatch): seq<Part>
    requires from <= m.start <= |s|
  {
    if m.start > from then [Plain(s[from..m.start])] else []
  }

  /** One step of the scan: the text before the first match, the match, and the parts after it. */
  lemma TokenizeStep(s: string, from: nat, m: LinkMatch)
    requires from <= |s| && FindLink(s, from) == Some(m)
    ensures Delimited(s, m) && from <= m.start && m.end < |s|
    ensures Tokenize(s, from) == Before(s, from, m) + [LinkPart(s, m)] + Tokenize(s, m.end + 1)
  {
    FindLinkSound(s, from);
  }

  /** The end of the scan: no further match leaves the rest, if any, as one plain part. */
  lemma TokenizeRest(s: string, from: nat)
    requires from <= |s| && FindLink(s, from).None?
    ensures Tokenize(s, from) == if from < |s| then [Plain(s[from..])] else []
  {
  }

  /** One step of the reconstruction: the text before a link, the link, and parts that write out the rest. */
  lemma RendersStep(s: string, from: nat, m: LinkMatch, rest: seq<Part>)
    requires Delimited(s, m) && from <= m.start
    requires Render(rest) == s[m.end + 1..]
    ensures Render(Before(s, from, m) + [LinkPart(s, m)] + rest) == s[from..]
  {
    var pre, link := Before(s, from, m), LinkPart(s, m);
    RenderAround(pre, link, rest);
    LinkMarkup(s, m);
    BeforeRenders(s, from, m);
    Glue(s, from, m.start, m.end + 1, Render(pre), Markup(link), Render(rest));
  }

  /** Three strings that are adjacent slices of `s` make up its suffix. */
  lemma Glue(s: string, a: nat, b: nat, c: nat, x: string, y: string, z: string)
    requires a <= b <= c <= |s|
    requires x == s[a..b] && y == s[b..c] && z == s[c..]
    ensures x + y + z == s[a..]
  {
    SuffixCat(s, a, c);
    SliceCat(s, a, b, c);
  }

  /** Writing out a part between two runs of parts. */
  lemma RenderAround(a: seq<Part>, p: Part, b: seq<Part>)
    ensures Render(a + [p] + b) == Render(a) + Markup(p) + Render(b)
  {
    RenderAppend(a + [p], b);
    RenderAppend(a, [p]);
    RenderOne(p);
  }

  lemma RenderOne(p: Part)
    ensures Render([p]) == Markup(p)
  {
    assert Render([p]) == Markup(p) + Render([]);
    assert Markup(p) + [] == Markup(p);
  }

  /** The plain part before a match writes out the text it was cut from. */
  lemma BeforeRenders(s: string, from: nat, m: LinkMatch)
    requires from <= m.start <= |s|
    ensures Render(Before(s, from, m)) == s[from..m.start]
  {
    if m.start > from {
      RenderOne(Plain(s[from..m.start]));
    }
  }

  /** The reconstruction across one match. */
  lemma {:induction false} RendersLinkCase(s: string, from: nat, m: LinkMatch)
    requires from <= |s| && FindLink(s, from) == Some(m)
    decreases |s| - from, 0
    ensures Render(Tokenize(s, from)) == s[from..]
  {
    TokenizeStep(s, from, m);
    var rest := Tokenize(s, m.end + 1);
    TokenizeRenders(s, m.end + 1);
    RendersStep(s, from, m, rest);
  }

  /** The reconstruction at the end of the scan. */
  lemma RendersRestCase(s: string, from: nat)
    requires from <= |s| && FindLink(s, from).None?
    ensures Render(Tokenize(s, from)) == s[from..]
  {
    TokenizeRest(s, from);
    if from < |s| {
      assert Render([Plain(s[from..])]) == s[from..] + Render([]);
    }
  }

  /** Writing the parts out gives the scanned text back, character for character. */
  lemma {:induction false} TokenizeRenders(s: string, from: nat)
    requires from <= |s|
    decreases |s| - from, 1
    ensures Render(Tokenize(s, from)) == s[from..]
  {
    match FindLink(s, from)
    case Some(m) => RendersLinkCase(s, from, m);
    case None => RendersRestCase(s, from);
  }

  /** Every part of a sequence is well formed. */
  predicate AllGood(ps: seq<Part>)
  {
    forall i :: 0 <= i < |ps| ==> GoodPart(ps[i])
  }

  /** Well-formedness across one match, given it for the rest. */
  lemma GoodLinkCase(s: string, from: nat, m: LinkMatch)
    requires from <= |s| && FindLink(s, from) == Some(m)
    requires m.end + 1 <= |s| && AllGood(Tokenize(s, m.end + 1))
    ensures AllGood(Tokenize(s, from))
  {
    TokenizeStep(s, from, m);
    FindLinkSound(s, from);
    assert GoodPart(LinkPart(s, m));
    assert AllGood(Before(s, from, m));
    AllGoodAround(Before(s, from, m), LinkPart(s, m), Tokenize(s, m.end + 1));
  }

  /** Well-formed parts around a well-formed part. */
  lemma AllGoodAround(pre: seq<Part>, p: Part, rest: seq<Part>)
    requires AllGood(pre) && GoodPart(p) && AllGood(rest)
    ensures AllGood(pre + [p] + rest)
  {
    var ps := pre + [p] + rest;
    forall i | 0 <= i < |ps| ensures GoodPart(ps[i]) {
      if i > |pre| {
        assert ps[i] == rest[i - |pre| - 1];
      } else if i == |pre| {
        assert ps[i] == p;
      } else {
        assert ps[i] == pre[i];
      }
    }
  }

  /** Every part is well formed. */
  lemma {:induction false} TokenizeGoodParts(s: string, from: nat)
    requires from <= |s|
    decreases |s| - from
    ensures AllGood(Tokenize(s, from))
  {
    match FindLink(s, from)
    case Some(m) =>
      TokenizeGoodParts(s, m.end + 1);
      GoodLinkCase(s, from, m);
    case None =>
      TokenizeRest(s, from);
  }

  /** No two plain parts are neighbours. */
  predicate Alternating(ps: seq<Part>)
  {
    forall i :: 0 <= i < |ps| - 1 ==> !(ps[i].Plain? && ps[i + 1].Plain?)
  }

  /** Alternation across one match, given it for the rest. */
  lemma AlternatesLinkCase(s: string, from: nat, m: LinkMatch)
    requires from <= |s| && FindLink(s, from) == Some(m)
    requires m.end + 1 <= |s| && Alternating(Tokenize(s, m.end + 1))
    ensures Alternating(Tokenize(s, from))
  {
    TokenizeStep(s, from, m);
    AlternatingAround(Before(s, from, m), LinkPart(s, m), Tokenize(s, m.end + 1));
  }

  /** A link between at most one plain part and an alternating run keeps the parts alternating. */
  lemma AlternatingAround(pre: seq<Part>, link: Part, rest: seq<Part>)
    requires |pre| <= 1 && link.Link? && Alternating(rest)
    ensures Alternating(pre + [link] + rest)
  {
    var ps := pre + [link] + rest;
    forall i | 0 <= i < |ps| - 1 ensures !(ps[i].Plain? && ps[i + 1].Plain?) {
      if i > |pre| {
        assert ps[i] == rest[i - |pre| - 1] && ps[i + 1] == rest[i - |pre|];
      } else if i == |pre| {
        assert ps[i] == link;
      } else {
        assert ps[i + 1] == link;
      }
    }
  }

  /** No two plain parts are adjacent: the text between two links is one part. */
  lemma {:induction false} TokenizeAlternates(s: string, from: nat)
    requires from <= |s|
    decreases |s| - from
    ensures Alternating(Tokenize(s, from))
  {
    match FindLink(s, from)
    case Some(m) =>
      TokenizeAlternates(s, m.end + 1);
      AlternatesLinkCase(s, from, m);
    case None =>
      TokenizeRest(s, from);
  }

  /** Without a link the entry is one plain part, or nothing at all when it is empty. */
  lemma NoLinkIsPlain(s: string)
    requires forall m: LinkMatch :: !IsLink(s, m)
    ensures Tokenize(s, 0) == if s == [] then [] else [Plain(s)]
  {
    match FindLink(s, 0)
    case None =>
    case Some(m) =>
      FindLinkSound(s, 0);
      assert false;
  }

  // ---- the scanning loop ----

  /**
    `renderEntry`: runs the link pattern from `lastIndex` again and again,
    emitting the plain text before each match when there is any and the
    match as a link, then the plain rest.
   */
  method RenderEntry(entry: string) returns (parts: seq<Part>)
    ensures parts == Tokenize(entry, 0)
  {
    parts := [];
    var lastIndex: nat := 0;
    var found := FindLink(entry, lastIndex);
    while found.Some?
      invariant lastIndex <= |entry|
      invariant found == FindLink(entry, lastIndex)
      invariant Scanned(entry, parts, lastIndex)
      decreases |entry| - lastIndex
    {
      var m := found.value;
      var before: seq<Part> := [];
      if m.start > lastIndex {
        var text := Slice(entry, lastIndex, m.start);
        if text != [] {
          before := [Plain(text)];
        }
      }
      var link := Link(entry[m.start + 1..m.close], entry[m.close + 2..m.end]);
      ScanStep(entry, lastIndex, m, before, link, parts);
      parts := parts + (before + [link]);
      lastIndex := m.end + 1;
      found := FindLink(entry, lastIndex);
    }
    var tail: seq<Part> := [];
    if lastIndex < |entry| {
      tail := [Plain(Slice(entry, lastIndex, |entry|))];
    }
    ScanEnd(entry, lastIndex, tail, parts);
    parts := parts + tail;
  }

  /** The scan up to `from` has emitted `done`: with the parts of the rest it makes the parts of the whole. */
  predicate Scanned(s: string, done: seq<Part>, from: nat)
  {
    from <= |s| && done + Tokenize(s, from) == Tokenize(s, 0)
  }

  /** The parts one pass of the loop emits are the ones the scan puts before the rest. */
  lemma ScanStep(s: string, from: nat, m: LinkMatch, before: seq<Part>, link: Part, done: seq<Part>)
    requires from <= |s| && FindLink(s, from) == Some(m)
    requires before == if m.start > from then [Plain(Slice(s, from, m.start))] else []
    requires link == Link(s[m.start + 1..m.close], s[m.close + 2..m.end])
    requires Scanned(s, done, from)
    ensures Scanned(s, done + (before + [link]), m.end + 1)
  {
    ScanParts(s, from, m, before, link);
    Shift(s, done, from, m.end + 1, before + [link]);
  }

  /** One pass of the loop computes the parts the scan puts before the rest. */
  lemma ScanParts(s: string, from: nat, m: LinkMatch, before: seq<Part>, link: Part)
    requires from <= |s| && FindLink(s, from) == Some(m)
    requires before == if m.start > from then [Plain(Slice(s, from, m.start))] else []
    requires link == Link(s[m.start + 1..m.close], s[m.close + 2..m.end])
    ensures m.end + 1 <= |s|
    ensures Tokenize(s, from) == before + [link] + Tokenize(s, m.end + 1)
  {
    TokenizeStep(s, from, m);
    assert before == Before(s, from, m);
  }

  /** Moving parts from the rest of the scan to what has been emitted. */
  lemma Shift(s: string, done: seq<Part>, from: nat, to: nat, emitted: seq<Part>)
    requires Scanned(s, done, from) && to <= |s|
    requires Tokenize(s, from) == emitted + Tokenize(s, to)
    ensures Scanned(s, done + emitted, to)
  {
    Associative(done, emitted, Tokenize(s, to));
  }

  /** What the loop adds after the last match is the rest of the scan. */
  lemma ScanEnd(s: string, from: nat, tail: seq<Part>, done: seq<Part>)
    requires from <= |s| && FindLink(s, from).None?
    requires tail == if from < |s| then [Plain(Slice(s, from, |s|))] else []
    requires Scanned(s, done, from)
    ensures done + tail == Tokenize(s, 0)
  {
    TokenizeRest(s, from);
    assert s[from..|s|] == s[from..];
  }

  lemma Associative<T>(a: seq<T>, b: seq<T>, c: seq<T>)
    ensures (a + b) + c == a + (b + c)
  {
  }

  // ---- the entries ----

  /** `map(trim)` followed by `filter(Boolean)`: the trimmed lines that are not empty. */
  function NonBlank(lines: seq<string>): seq<string>
  {
    if lines == [] then []
    else (if Trim(lines[0]) != [] then [Trim(lines[0])] else []) + NonBlank(lines[1..])
  }

  /** The entries of the credits text: trimmed, cut at every line break, each line trimmed, blank lines dropped. */
  function CreditEntries(markdown: string): seq<string>
  {
    NonBlank(Split(Trim(markdown), '\n'))
  }

  /** A trimmed string is a piece of the original. */
  lemma TrimIsPiece(s: string, c: char)
    requires c !in s
    ensures c !in Trim(s)
  {
    TrimmedShape(s);
    var t := Trim(s);
    var a := |s| - |TrimStart(s)|;
    forall j | 0 <= j < |t| ensures t[j] != c {
      assert t[j] == s[a + j];
    }
  }

  /** The lines kept are non-empty, already trimmed, free of line breaks, and no more than the lines given. */
  lemma {:induction false} NonBlankClean(lines: seq<string>)
    requires forall k :: 0 <= k < |lines| ==> '\n' !in lines[k]
    decreases |lines|
    ensures |NonBlank(lines)| <= |lines|
    ensures forall k :: 0 <= k < |NonBlank(lines)| ==>
      NonBlank(lines)[k] != [] && Trim(NonBlank(lines)[k]) == NonBlank(lines)[k] && '\n' !in NonBlank(lines)[k]
  {
    if lines != [] {
      NonBlankClean(lines[1..]);
      TrimIdempotent(lines[0]);
      TrimIsPiece(lines[0], '\n');
    }
  }

  /** Every credits entry is non-empty, has no surrounding white space and is a single line; there is at most one per line of the text. */
  lemma CreditEntriesClean(markdown: string)
    ensures |CreditEntries(markdown)| <= Count(Trim(markdown), '\n') + 1
    ensures forall k :: 0 <= k < |CreditEntries(markdown)| ==>
      var e := CreditEntries(markdown)[k];
      e != [] && Trim(e) == e && '\n' !in e
  {
    SplitLength(Trim(markdown), '\n');
    NonBlankClean(Split(Trim(markdown), '\n'));
  }
}
