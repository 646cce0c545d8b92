/** Program slugs: the string normaliser, and the search for one that the organization has not used. */
module Slugs {
  import opened Collections
  import Text

  // ----- slugify

  predicate SlugChar(c: char)
  {
    'a' <= c <= 'z' || '0' <= c <= '9' || c == '-'
  }

  /** Lower-casing of one character, to one or more; it leaves the characters of slugs alone. */
  type Fold = f: char -> string | forall c :: SlugChar(c) ==> f(c) == [c] witness (c: char) => [c]

  function Lower(s: string, fold: Fold): string
  {
    if s == "" then "" else fold(s[0]) + Lower(s[1..], fold)
  }

  /** .replace(/[^a-z0-9\s-]/g, "") */
  function Strip(s: string): string
  {
    if s == "" then ""
    else (if SlugChar(s[0]) || Text.IsSpace(s[0]) then [s[0]] else "") + Strip(s[1..])
  }

  /** .replace(/\s+/g, "-"): spacing tells whether a run of white space is being replaced. */
  function Dash(s: string, spacing: bool): string
  {
    if s == "" then ""
    else if Text.IsSpace(s[0]) then (if spacing then "" else "-") + Dash(s[1..], true)
    else [s[0]] + Dash(s[1..], false)
  }

  /** .replace(/-+/g, "-") */
  function Squeeze(s: string, dashed: bool): string
  {
    if s == "" then ""
    else if s[0] == '-' then (if dashed then "" else "-") + Squeeze(s[1..], true)
    else [s[0]] + Squeeze(s[1..], false)
  }

  function Slugify(s: string, fold: Fold): string
  {
    Text.Trim(Squeeze(Dash(Strip(Lower(s, fold)), false), false))
  }

  /** Slug characters only, and no two hyphens in a row. */
  predicate IsSlug(s: string)
  {
    (forall i :: 0 <= i < |s| ==> SlugChar(s[i])) && forall i :: 0 <= i < |s| - 1 ==> !(s[i] == '-' && s[i + 1] == '-')
  }

  predicate SlugChars(s: string)
  {
    forall i :: 0 <= i < |s| ==> SlugChar(s[i])
  }

  predicate SlugOrSpace(s: string)
  {
    forall i :: 0 <= i < |s| ==> SlugChar(s[i]) || Text.IsSpace(s[i])
  }

  lemma {:induction false} StripKeeps(s: string)
    ensures SlugOrSpace(Strip(s))
    ensures SlugChars(s) ==> Strip(s) == s
  {
    if s == "" {
    } else {
      StripKeeps(s[1..]);
      assert [s[0]] + s[1..] == s;
    }
  }

  lemma {:induction false} DashKeeps(s: string, spacing: bool)
    requires SlugOrSpace(s)
    ensures SlugChars(Dash(s, spacing))
    ensures SlugChars(s) ==> Dash(s, spacing) == s
  {
    if s == "" {
    } else {
      DashKeeps(s[1..], Text.IsSpace(s[0]));
      assert [s[0]] + s[1..] == s;
      assert SlugChar(s[0]) ==> !Text.IsSpace(s[0]);
    }
  }

  /** After squeezing, no two hyphens meet, and none starts the text if one stood before it. */
  lemma {:induction false} SqueezeKeeps(s: string, dashed: bool)
    requires SlugChars(s)
    ensures IsSlug(Squeeze(s, dashed))
    ensures dashed && Squeeze(s, dashed) != "" ==> Squeeze(s, dashed)[0] != '-'
    ensures IsSlug(s) && (dashed && s != "" ==> s[0] != '-') ==> Squeeze(s, dashed) == s
  {
    if s == "" {
    } else {
      SqueezeKeeps(s[1..], s[0] == '-');
      assert [s[0]] + s[1..] == s;
      assert IsSlug(s) && s[0] == '-' && s[1..] != "" ==> s[1] != '-';
      assert IsSlug(s) ==> IsSlug(s[1..]);
    }
  }

  lemma {:induction false} LowerKeeps(s: string, fold: Fold)
    requires SlugChars(s)
    ensures Lower(s, fold) == s
  {
    if s == "" {
    } else {
      LowerKeeps(s[1..], fold);
      assert [s[0]] + s[1..] == s;
    }
  }

  lemma TrimSlug(s: string)
    requires SlugChars(s)
    ensures Text.Trim(s) == s
  {
    if s != "" {
      assert SlugChar(s[0]) && SlugChar(s[|s| - 1]);
      assert !Text.IsSpace(s[0]) && !Text.IsSpace(s[|s| - 1]);
    }
  }

  lemma SlugMeans(t: string)
    ensures IsSlug(t) <==>
      (forall c :: c in t ==> 'a' <= c <= 'z' || '0' <= c <= '9' || c == '-') &&
      forall i :: 0 <= i < |t| - 1 ==> t[i] != '-' || t[i + 1] != '-'
  {
    assert forall i :: 0 <= i < |t| ==> t[i] in t;
  }

  /** Every result consists of a-z, 0-9 and single hyphens. */
  lemma SlugifyIsSlug(s: string, fold: Fold)
    ensures IsSlug(Slugify(s, fold))
    ensures var t := Slugify(s, fold);
      (forall c :: c in t ==> 'a' <= c <= 'z' || '0' <= c <= '9' || c == '-') &&
      forall i :: 0 <= i < |t| - 1 ==> t[i] != '-' || t[i + 1] != '-'
  {
    hide Text.IsSpace, Text.Trim, SlugChar;
    SlugMeans(Slugify(s, fold));
    var lower := Lower(s, fold);
    StripKeeps(lower);
    DashKeeps(Strip(lower), false);
    SqueezeKeeps(Dash(Strip(lower), false), false);
    TrimSlug(Squeeze(Dash(Strip(lower), false), false));
  }

  /** The strings that slugify leaves alone are exactly its results. */
  lemma FixedIffSlug(s: string, fold: Fold)
    ensures Slugify(s, fold) == s <==> IsSlug(s)
    ensures Slugify(s, fold) == s <==>
      (forall c :: c in s ==> 'a' <= c <= 'z' || '0' <= c <= '9' || c == '-') &&
      forall i :: 0 <= i < |s| - 1 ==> s[i] != '-' || s[i + 1] != '-'
  {
    hide Text.IsSpace, Text.Trim, SlugChar;
    SlugMeans(s);
    SlugifyIsSlug(s, fold);
    if IsSlug(s) {
      assert SlugChars(s);
      LowerKeeps(s, fold);
      StripKeeps(s);
      assert SlugOrSpace(s);
      DashKeeps(s, false);
      SqueezeKeeps(s, false);
      TrimSlug(s);
    }
  }

  lemma SlugifyIdempotent(s: string, fold: Fold)
    ensures Slugify(Slugify(s, fold), fold) == Slugify(s, fold)
  {
    hide Slugify, IsSlug;
    SlugifyIsSlug(s, fold);
    FixedIffSlug(Slugify(s, fold), fold);
  }

  /** The letters and digits of a text. */
  function Letters(s: string): string
  {
    if s == "" then "" else (if SlugChar(s[0]) && s[0] != '-' then [s[0]] else "") + Letters(s[1..])
  }

  lemma {:induction false} StripLetters(s: string)
    ensures Letters(Strip(s)) == Letters(s)
  {
    if s == "" {
    } else {
      StripLetters(s[1..]);
      var kept := if SlugChar(s[0]) || Text.IsSpace(s[0]) then [s[0]] else "";
      if kept != "" { assert (kept + Strip(s[1..]))[1..] == Strip(s[1..]); } else { assert Strip(s) == Strip(s[1..]); }
    }
  }

  lemma {:induction false} DashLetters(s: string, spacing: bool)
    ensures Letters(Dash(s, spacing)) == Letters(s)
  {
    if s == "" {
    } else {
      var rest := Dash(s[1..], Text.IsSpace(s[0]));
      DashLetters(s[1..], Text.IsSpace(s[0]));
      assert ("-" + rest)[1..] == rest && ([s[0]] + rest)[1..] == rest && "" + rest == rest;
      assert Text.IsSpace(s[0]) ==> !SlugChar(s[0]);
    }
  }

  lemma {:induction false} SqueezeLetters(s: string, dashed: bool)
    ensures Letters(Squeeze(s, dashed)) == Letters(s)
  {
    if s == "" {
    } else {
      var rest := Squeeze(s[1..], s[0] == '-');
      SqueezeLetters(s[1..], s[0] == '-');
      assert ("-" + rest)[1..] == rest && ([s[0]] + rest)[1..] == rest && "" + rest == rest;
    }
  }

  /** slugify keeps the letters and digits of the lower-cased text, all of them and in order. */
  lemma SlugifyKeepsLetters(s: string, fold: Fold)
    ensures Letters(Slugify(s, fold)) == Letters(Lower(s, fold))
  {
    hide Text.IsSpace, Text.Trim, SlugChar, Letters;
    var stripped := Strip(Lower(s, fold));
    StripKeeps(Lower(s, fold));
    DashKeeps(stripped, false);
    SqueezeKeeps(Dash(stripped, false), false);
    TrimSlug(Squeeze(Dash(stripped, false), false));
    StripLetters(Lower(s, fold));
    DashLetters(stripped, false);
    SqueezeLetters(Dash(stripped, false), false);
  }

  // ----- hyphens at the ends

  predicate Edge(c: char)
  {
    c == '-' || Text.IsSpace(c)
  }

  predicate Starts(s: string)
  {
    s != "" && s[0] == '-'
  }

  predicate Ends(s: string)
  {
    s != "" && s[|s| - 1] == '-'
  }

  predicate AllOf(s: string, p: char -> bool)
  {
    forall i :: 0 <= i < |s| ==> p(s[i])
  }

  predicate Spaces(s: string)
  {
    AllOf(s, Text.IsSpace)
  }

  predicate EdgeEnd(s: string)
  {
    s != "" && Edge(s[|s| - 1])
  }

  lemma SpacesTail(s: string)
    requires s != ""
    ensures Spaces(s) <==> Text.IsSpace(s[0]) && Spaces(s[1..])
    ensures |s| > 1 ==> (EdgeEnd(s) <==> EdgeEnd(s[1..]))
    ensures |s| == 1 ==> (EdgeEnd(s) <==> Edge(s[0]))
    ensures Spaces(s[1..]) && |s| > 1 ==> EdgeEnd(s[1..])
  {
    hide Text.IsSpace;
    assert forall i :: 1 <= i < |s| ==> s[i] == s[1..][i - 1];
  }

  lemma {:induction false} DashEnds(s: string, spacing: bool)
    ensures Spaces(s) ==> Dash(s, spacing) == if spacing || s == "" then "" else "-"
    ensures !Spaces(s) ==> Dash(s, spacing) != "" && (Ends(Dash(s, spacing)) <==> EdgeEnd(s))
  {
    if s == "" {
    } else {
      hide Text.IsSpace, Spaces, Ends, EdgeEnd;
      var rest := Dash(s[1..], Text.IsSpace(s[0]));
      DashEnds(s[1..], Text.IsSpace(s[0]));
      SpacesTail(s);
      EndOf("", rest);
      EndOf("-", rest);
      EndOf([s[0]], rest);
      NoSpaces();
    }
  }

  lemma NoSpaces()
    ensures Spaces("") && !Ends("") && Ends("-") && forall c :: Ends([c]) <==> c == '-'
  {
  }

  predicate Hyphens(s: string)
  {
    AllOf(s, (c: char) => c == '-')
  }

  lemma HyphensTail(s: string)
    requires s != ""
    ensures Hyphens(s) <==> s[0] == '-' && Hyphens(s[1..])
    ensures |s| > 1 ==> (Ends(s) <==> Ends(s[1..]))
  {
    assert forall i :: 1 <= i < |s| ==> s[i] == s[1..][i - 1];
  }

  lemma {:induction false} SqueezeEnds(s: string, dashed: bool)
    ensures Hyphens(s) ==> Squeeze(s, dashed) == if dashed || s == "" then "" else "-"
    ensures !Hyphens(s) ==> Squeeze(s, dashed) != "" && (Ends(Squeeze(s, dashed)) <==> Ends(s))
  {
    if s == "" {
    } else {
      hide Hyphens, Ends;
      var rest := Squeeze(s[1..], s[0] == '-');
      SqueezeEnds(s[1..], s[0] == '-');
      HyphensTail(s);
      HyphensEnd(s[1..]);
      EndOf("", rest);
      EndOf([s[0]], rest);
      NoHyphens();
    }
  }

  lemma EndOf(h: string, rest: string)
    ensures rest != "" ==> (Ends(h + rest) <==> Ends(rest))
    ensures rest == "" && h != "" ==> (Ends(h + rest) <==> h[|h| - 1] == '-')
  {
  }

  lemma NoHyphens()
    ensures Hyphens("") && !Ends("") && forall c :: Ends([c]) <==> c == '-'
  {
  }

  /**
   * The final trim removes nothing: a slug starts (ends) with a hyphen exactly when the lower-cased text, without the
   * characters that slugify drops, starts (ends) with white space or a hyphen.
   */
  lemma EdgeHyphensIff(s: string, fold: Fold)
    ensures var t, u := Slugify(s, fold), Strip(Lower(s, fold));
      (Starts(t) <==> u != "" && Edge(u[0])) && (Ends(t) <==> u != "" && Edge(u[|u| - 1]))
  {
    hide Text.IsSpace, Text.Trim, SlugChar, Strip, Lower, AllOf, Hyphens, Spaces;
    var u := Strip(Lower(s, fold));
    var dashed := Dash(u, false);
    StripKeeps(Lower(s, fold));
    DashKeeps(u, false);
    SqueezeKeeps(dashed, false);
    TrimSlug(Squeeze(dashed, false));
    DashEnds(u, false);
    SqueezeEnds(dashed, false);
    SpacesEdge(u);
    HyphensEnd(dashed);
  }

  lemma SpacesEdge(s: string)
    ensures Spaces(s) && s != "" ==> Edge(s[0]) && Edge(s[|s| - 1])
  {
  }

  lemma HyphensEnd(s: string)
    ensures Hyphens(s) && s != "" ==> Ends(s)
  {
  }

  /** For instance, with a space at each end. */
  lemma EdgesBecomeHyphens(fold: Fold)
    requires fold(' ') == " "
    ensures Slugify(" a ", fold) == "-a-"
  {
    var s := " a ";
    assert SlugChar('a') && fold('a') == "a";
    assert Text.IsSpace(' ') && !Text.IsSpace('a');
    assert s[1..] == "a " && "a "[1..] == " " && " "[1..] == "";
    assert Lower(" ", fold) == " ";
    assert Lower("a ", fold) == "a ";
    assert Lower(s, fold) == s;
    assert Strip(" ") == " ";
    assert Strip("a ") == "a ";
    assert Strip(s) == s;
    assert Dash(" ", false) == "-";
    assert Dash("a ", true) == "a-";
    assert Dash(s, false) == "-a-";
    FixedIffSlug("-a-", fold);
    SqueezeKeeps("-a-", false);
    TrimSlug("-a-");
  }

  // ----- the inside of a slug

  /** One pass over the text: each run of white space and hyphens becomes one hyphen. */
  function Collapse(s: string, after: bool): string
  {
    if s == "" then ""
    else if s[0] == '-' || Text.IsSpace(s[0]) then (if after then "" else "-") + Collapse(s[1..], true)
    else [s[0]] + Collapse(s[1..], false)
  }

  /** The two passes over white space and hyphens come to one. */
  lemma {:induction false} OnePass(s: string, spacing: bool, dashed: bool)
    requires spacing ==> dashed
    ensures Squeeze(Dash(s, spacing), dashed) == Collapse(s, dashed)
  {
    hide Text.IsSpace;
    if s == "" {
    } else {
      var c, rest := s[0], s[1..];
      assert !Text.IsSpace('-') by { HyphenIsNoSpace(); }
      if Text.IsSpace(c) {
        OnePass(rest, true, true);
        assert ("-" + Dash(rest, true))[1..] == Dash(rest, true) && "" + Dash(rest, true) == Dash(rest, true);
      } else {
        OnePass(rest, false, c == '-');
        assert ([c] + Dash(rest, false))[1..] == Dash(rest, false);
      }
    }
  }

  lemma HyphenIsNoSpace()
    ensures !Text.IsSpace('-')
  {
  }

  lemma SlugifyOnePass(s: string, fold: Fold)
    ensures Slugify(s, fold) == Collapse(Strip(Lower(s, fold)), false)
  {
    hide Text.IsSpace, Text.Trim, SlugChar, Strip, Lower;
    var u := Strip(Lower(s, fold));
    StripKeeps(Lower(s, fold));
    DashKeeps(u, false);
    SqueezeKeeps(Dash(u, false), false);
    TrimSlug(Squeeze(Dash(u, false), false));
    OnePass(u, false, false);
  }

  /** White space and hyphens only, at least one. */
  predicate Gap(s: string)
  {
    s != "" && forall i :: 0 <= i < |s| ==> s[i] == '-' || Text.IsSpace(s[i])
  }

  predicate Plain(s: string)
  {
    forall i :: 0 <= i < |s| ==> s[i] != '-' && !Text.IsSpace(s[i])
  }

  lemma {:induction false} PlainStays(p: string, rest: string)
    requires Plain(p) && p != ""
    ensures forall after: bool :: Collapse(p + rest, after) == p + Collapse(rest, false)
    decreases |p|
  {
    hide Text.IsSpace;
    assert (p + rest)[1..] == p[1..] + rest;
    if |p| == 1 {
      assert p[1..] + rest == rest && p == [p[0]];
    } else {
      PlainStays(p[1..], rest);
      assert p == [p[0]] + p[1..];
    }
  }

  lemma {:induction false} GapStays(gap: string, rest: string)
    requires Gap(gap)
    ensures Collapse(gap + rest, true) == Collapse(rest, true)
    ensures Collapse(gap + rest, false) == "-" + Collapse(rest, true)
    decreases |gap|
  {
    hide Text.IsSpace;
    assert (gap + rest)[1..] == gap[1..] + rest;
    if |gap| == 1 {
      assert gap[1..] + rest == rest;
    } else {
      GapStays(gap[1..], rest);
    }
  }

  /** Words with a gap after each but the last. */
  function Spaced(words: seq<string>, gaps: seq<string>): string
    requires |words| == |gaps| + 1
  {
    if gaps == [] then words[0] else words[0] + (gaps[0] + Spaced(words[1..], gaps[1..]))
  }

  /** Whatever stands between the words, one hyphen does in the slug. */
  lemma {:induction false} WordsJoined(words: seq<string>, gaps: seq<string>, after: bool)
    requires |words| == |gaps| + 1 && (forall i :: 0 <= i < |gaps| ==> Gap(gaps[i]))
    requires forall i :: 0 <= i < |words| ==> Plain(words[i]) && words[i] != ""
    ensures Collapse(Spaced(words, gaps), after) == Text.Join(words, '-')
    decreases |gaps|
  {
    hide Gap, Plain, Collapse;
    if gaps == [] {
      PlainStays(words[0], "");
      assert words[0] + "" == words[0] && Collapse("", false) == "" by { CollapseNone(); }
    } else {
      var rest := Spaced(words[1..], gaps[1..]);
      WordsJoined(words[1..], gaps[1..], true);
      PlainStays(words[0], gaps[0] + rest);
      GapStays(gaps[0], rest);
      assert words[0] + ("-" + Text.Join(words[1..], '-')) == words[0] + ['-'] + Text.Join(words[1..], '-');
    }
  }

  lemma CollapseNone()
    ensures Collapse("", false) == ""
  {
  }

  /** Lower-casing is done character by character. */
  lemma {:induction false} LowerSplits(a: string, c: char, b: string, fold: Fold)
    ensures Lower(a + [c] + b, fold) == Lower(a, fold) + fold(c) + Lower(b, fold)
    decreases |a|
  {
    var s := a + [c] + b;
    if a == "" {
      assert s[1..] == b;
    } else {
      assert s[1..] == a[1..] + [c] + b;
      LowerSplits(a[1..], c, b, fold);
    }
  }

  /** What slugify drops from the lower-cased text: all but a-z, 0-9, hyphens and white space. */
  predicate Dropped(c: char)
  {
    !('a' <= c <= 'z') && !('0' <= c <= '9') && c != '-' && !Text.IsSpace(c)
  }

  lemma DroppedIs(c: char)
    ensures Dropped(c) <==> !SlugChar(c) && !Text.IsSpace(c)
  {
    hide Text.IsSpace;
  }

  lemma StripOne(c: char, rest: string)
    ensures Strip([c] + rest) == (if Dropped(c) then "" else [c]) + Strip(rest)
  {
    hide Text.IsSpace, Dropped, SlugChar;
    DroppedIs(c);
    assert ([c] + rest)[1..] == rest;
  }

  /** Dropping is done character by character, keeping the order. */
  lemma {:induction false} StripSplits(a: string, c: char, b: string)
    ensures Strip(a + [c] + b) == Strip(a) + ((if Dropped(c) then "" else [c]) + Strip(b))
    decreases |a|
  {
    hide Strip, Dropped;
    if a == "" {
      assert a + [c] + b == [c] + b && Strip(a) == "" by { StripNone(); }
      StripOne(c, b);
    } else {
      var rest := a[1..] + [c] + b;
      assert a + [c] + b == [a[0]] + rest && a == [a[0]] + a[1..];
      StripSplits(a[1..], c, b);
      StripOne(a[0], rest);
      StripOne(a[0], a[1..]);
    }
  }

  lemma StripNone()
    ensures Strip("") == ""
  {
  }

  /** A text of words and gaps, once dropped characters are gone, becomes the words with one hyphen between any two. */
  lemma SlugOfWords(s: string, fold: Fold, words: seq<string>, gaps: seq<string>)
    requires |words| == |gaps| + 1 && (forall i :: 0 <= i < |gaps| ==> Gap(gaps[i]))
    requires forall i :: 0 <= i < |words| ==> Plain(words[i]) && words[i] != ""
    requires Strip(Lower(s, fold)) == Spaced(words, gaps)
    ensures Slugify(s, fold) == Text.Join(words, '-')
  {
    SlugifyOnePass(s, fold);
    WordsJoined(words, gaps, false);
  }

  // ----- the unique slug

  /** The slug of the n-th attempt. */
  function Attempt(base: string, n: nat): string
  {
    if n == 0 then base else base + "-" + Text.Decimal(n)
  }

  lemma AttemptInjective(base: string, m: nat, n: nat)
    requires Attempt(base, m) == Attempt(base, n)
    ensures m == n
  {
    if m > 0 && n > 0 {
      assert Text.Decimal(m) == Attempt(base, m)[|base| + 1..] == Attempt(base, n)[|base| + 1..] == Text.Decimal(n);
      Text.DecimalInjective(m, n);
    }
  }

  lemma {:induction false} DecimalDigits(n: nat)
    ensures forall i :: 0 <= i < |Text.Decimal(n)| ==> '0' <= Text.Decimal(n)[i] <= '9'
  {
    if n >= 10 { DecimalDigits(n / 10); }
  }

  /** A suffixed slug is a slug again, unless the name's slug ends in a hyphen: then two hyphens meet. */
  lemma SuffixedIffSlug(base: string, n: nat)
    requires IsSlug(base)
    ensures IsSlug(Attempt(base, n)) <==> n == 0 || base == "" || base[|base| - 1] != '-'
  {
    if n > 0 {
      var s, digits := Attempt(base, n), Text.Decimal(n);
      DecimalDigits(n);
      assert s[|base|] == '-';
      assert forall i :: 0 <= i < |base| ==> s[i] == base[i];
      assert forall i :: |base| < i < |s| ==> s[i] == digits[i - |base| - 1];
      if base != "" { assert s[|base| - 1] == base[|base| - 1]; }
    }
  }

  function Tried(base: string, n: nat): set<string>
  {
    set i | 0 <= i < n :: Attempt(base, i)
  }

  lemma {:induction false} TriedSize(base: string, n: nat)
    ensures |Tried(base, n)| == n
  {
    if n == 0 {
    } else {
      TriedSize(base, n - 1);
      forall i | 0 <= i < n - 1 ensures Attempt(base, i) != Attempt(base, n - 1) {
        if Attempt(base, i) == Attempt(base, n - 1) { AttemptInjective(base, i, n - 1); }
      }
      assert Tried(base, n) == Tried(base, n - 1) + {Attempt(base, n - 1)};
    }
  }

  /**
   * The loop of createProgram. It ends: with n slugs in use it probes attempts 0 to at most n, and the result is the
   * first unused one, of least suffix.
   */
  method UniqueSlug(base: string, taken: set<string>) returns (slug: string, attempt: nat)
    ensures slug !in taken && slug == Attempt(base, attempt)
    ensures attempt == 0 ==> slug == base
    ensures attempt > 0 ==>
      base + "-" <= slug && Text.Value(slug[|base| + 1..]) == attempt && slug[|base| + 1] != '0'
    ensures forall n :: 0 <= n < attempt ==> Attempt(base, n) in taken
    ensures attempt <= |taken|
  {
    slug, attempt := base, 0;
    while slug in taken
      invariant slug == Attempt(base, attempt)
      invariant Tried(base, attempt) <= taken && attempt <= |taken|
      decreases |taken| - attempt
    {
      assert Tried(base, attempt + 1) <= taken;
      TriedSize(base, attempt + 1);
      SubsetSize(Tried(base, attempt + 1), taken);
      attempt := attempt + 1;
      slug := base + "-" + Text.Decimal(attempt);
    }
    forall n | 0 <= n < attempt ensures Attempt(base, n) in taken {
      assert Attempt(base, n) in Tried(base, attempt);
    }
    if attempt > 0 {
      Text.DecimalReads(attempt);
      assert slug[|base| + 1..] == Text.Decimal(attempt);
    }
  }
}
