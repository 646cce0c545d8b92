/** The KEY=VALUE file format: its parser, its writer, and when they undo each other. */
module EnvFile {
  import opened Collections
  import Text

  type Env = map<string, string>

  const HEADER := "# Auto-generated by OmniRoute bootstrap"

  /** text.split(/\r?\n/) */
  function Lines(text: string): seq<string>
  {
    var pieces := Text.Split(text, '\n');
    seq(|pieces|, i requires 0 <= i < |pieces| => if i < |pieces| - 1 then DropCr(pieces[i]) else pieces[i])
  }

  function DropCr(s: string): string
  {
    if s != "" && s[|s| - 1] == '\r' then s[..|s| - 1] else s
  }

  function IndexOf(s: string, c: char): int
  {
    if s == "" then -1
    else if s[0] == c then 0
    else
      var i := IndexOf(s[1..], c);
      if i == -1 then -1 else i + 1
  }

  lemma {:induction false} IndexOfFirst(s: string, c: char)
    ensures IndexOf(s, c) == -1 <==> c !in s
    ensures -1 <= IndexOf(s, c) < |s|
    ensures IndexOf(s, c) >= 0 ==> s[IndexOf(s, c)] == c && c !in s[..IndexOf(s, c)]
  {
    if s == "" {
    } else {
      IndexOfFirst(s[1..], c);
      var i := IndexOf(s[1..], c);
      assert s == [s[0]] + s[1..];
      if s[0] != c && i >= 0 { assert s[..i + 1] == [s[0]] + s[1..][..i]; }
    }
  }

  lemma {:induction false} IndexOfAt(s: string, c: char, i: nat)
    requires i < |s| && s[i] == c && c !in s[..i]
    ensures IndexOf(s, c) == i
  {
    if i == 0 {
    } else {
      assert s[..i][0] == s[0] && s[1..][..i - 1] == s[..i][1..];
      IndexOfAt(s[1..], c, i - 1);
    }
  }

  /** What one line contributes: nothing if blank, a comment, or without a name before its first equals sign. */
  function ParseLine(line: string): Option<(string, string)>
  {
    var t := Text.Trim(line);
    var eq := IndexOf(t, '=');
    if t == "" || t[0] == '#' || eq < 1 || eq >= |t| then None
    else Some((Text.Trim(t[..eq]), Text.Trim(t[eq + 1..])))
  }

  function Put(env: Env, entry: Option<(string, string)>): Env
  {
    if entry.Some? then env[entry.value.0 := entry.value.1] else env
  }

  /** Later lines win. */
  function ParseLines(lines: seq<string>): Env
  {
    if lines == [] then map[] else Put(ParseLines(lines[..|lines| - 1]), ParseLine(lines[|lines| - 1]))
  }

  function Parse(text: string): Env
  {
    ParseLines(Lines(text))
  }

  function LineOf(m: Env, k: string): string
    requires k in m
  {
    k + "=" + m[k]
  }

  /** The file for m, its entries in the order keys. */
  function Render(m: Env, keys: seq<string>): string
    requires Elems(keys) == m.Keys
  {
    Text.Join([HEADER, ""] + EntryLines(m, keys) + [""], '\n')
  }

  function EntryLines(m: Env, keys: seq<string>): seq<string>
    requires Elems(keys) <= m.Keys
  {
    seq(|keys|, i requires 0 <= i < |keys| => (assert keys[i] in Elems(keys); LineOf(m, keys[i])))
  }

  /** A key and value that survive being written: one line, trimmed, no '=' in the key, not a comment. */
  predicate Printable(k: string, v: string)
  {
    k != "" && Text.Trimmed(k) && k[0] != '#' && '=' !in k && '\n' !in k && Text.Trimmed(v) && '\n' !in v
  }

  predicate AllPrintable(m: Env)
  {
    forall k :: k in m ==> Printable(k, m[k])
  }

  // ----- trimming

  lemma {:induction false} TrimLeftFacts(s: string)
    ensures var t := Text.TrimLeft(s); t != "" ==> !Text.IsSpace(t[0])
    ensures forall c :: c in Text.TrimLeft(s) ==> c in s
    ensures s != "" && !Text.IsSpace(s[0]) ==> Text.TrimLeft(s) == s
  {
    if s != "" && Text.IsSpace(s[0]) { TrimLeftFacts(s[1..]); }
  }

  lemma {:induction false} TrimRightFacts(s: string)
    ensures var t := Text.TrimRight(s); t <= s && (t != "" ==> !Text.IsSpace(t[|t| - 1]))
    ensures s != "" && !Text.IsSpace(s[0]) ==> Text.TrimRight(s) != ""
    ensures s != "" && !Text.IsSpace(s[|s| - 1]) ==> Text.TrimRight(s) == s
    decreases |s|
  {
    if s != "" && Text.IsSpace(s[|s| - 1]) { TrimRightFacts(s[..|s| - 1]); }
  }

  /** Trim yields a trimmed string of the same characters, and leaves trimmed strings alone. */
  lemma TrimFacts(s: string)
    ensures Text.Trimmed(Text.Trim(s)) && (forall c :: c in Text.Trim(s) ==> c in s)
    ensures Text.Trimmed(s) ==> Text.Trim(s) == s
    ensures s != "" && !Text.IsSpace(s[0]) ==> Text.Trim(s) != "" && Text.Trim(s)[0] == s[0]
  {
    var l := Text.TrimLeft(s);
    TrimLeftFacts(s);
    TrimRightFacts(l);
    var t := Text.TrimRight(l);
    if t != "" { assert t[0] == l[0]; }
    forall c | c in t ensures c in s { assert c in l; }
  }

  // ----- what a line and a file say

  /** The line reads key = value: white space around key and value, no '=' in the key, and not a comment. */
  ghost predicate Reads(line: string, k: string, v: string)
  {
    k != "" && Text.Trimmed(k) && k[0] != '#' && '=' !in k && Text.Trimmed(v) &&
    exists a, b, c, d :: Text.Spaces(a) && Text.Spaces(b) && Text.Spaces(c) && Text.Spaces(d) &&
                         line == a + k + b + "=" + c + v + d
  }

  lemma ReadsParsed(line: string, a: string, k: string, b: string, c: string, v: string, d: string)
    requires k != "" && Text.Trimmed(k) && k[0] != '#' && '=' !in k && Text.Trimmed(v)
    requires Text.Spaces(a) && Text.Spaces(b) && Text.Spaces(c) && Text.Spaces(d)
    requires line == a + k + b + "=" + c + v + d
    ensures ParseLine(line) == Some((k, v))
  {
    hide ParseLine, Text.Trim, Text.IsSpace, Text.Spaces;
    NoSpace();
    NoEquals(b);
    var head := k + b;
    assert head == "" + k + b;
    Text.TrimPadded("", k, b);
    if v == "" {
      assert line == a + (head + "=") + (c + d);
      SpacesJoin(c, d);
      ParsedAs(line, a, head, "", c + d, k, v);
    } else {
      assert line == a + (head + "=" + (c + v)) + d && c + v == c + v + "";
      Text.TrimPadded(c, v, "");
      assert (c + v)[|c + v| - 1] == v[|v| - 1];
      ParsedAs(line, a, head, c + v, d, k, v);
    }
  }

  /** A line whose trimmed text is head=tail. */
  lemma ParsedAs(line: string, a: string, head: string, tail: string, e: string, k: string, v: string)
    requires Text.Spaces(a) && Text.Spaces(e) && line == a + (head + "=" + tail) + e
    requires head != "" && head[0] != '#' && !Text.IsSpace(head[0]) && '=' !in head
    requires tail == "" || !Text.IsSpace(tail[|tail| - 1])
    requires k == Text.Trim(head) && v == Text.Trim(tail)
    ensures ParseLine(line) == Some((k, v))
  {
    hide Text.Trim, Text.IsSpace, Text.Spaces;
    var t := head + "=" + tail;
    NoSpace();
    assert t[0] == head[0] && t[|t| - 1] == if tail == "" then '=' else tail[|tail| - 1];
    Text.TrimPadded(a, t, e);
    assert t[..|head|] == head && t[|head| + 1..] == tail;
    IndexOfAt(t, '=', |head|);
  }

  lemma NoEquals(b: string)
    requires Text.Spaces(b)
    ensures '=' !in b
  {
  }

  lemma NoSpace()
    ensures !Text.IsSpace('=') && Text.Spaces("") && Text.Trim("") == ""
  {
  }

  /** A line contributes an entry exactly if it reads so. */
  lemma ParseLineIff(line: string, k: string, v: string)
    ensures ParseLine(line) == Some((k, v)) <==> Reads(line, k, v)
  {
    hide Text.Trim, Text.IsSpace;
    if Reads(line, k, v) {
      var a, b, c, d :| Text.Spaces(a) && Text.Spaces(b) && Text.Spaces(c) && Text.Spaces(d) &&
                        line == a + k + b + "=" + c + v + d;
      ReadsParsed(line, a, k, b, c, v, d);
    }
    if ParseLine(line) == Some((k, v)) { ParsedReads(line, k, v); }
  }

  lemma ParsedReads(line: string, k: string, v: string)
    requires ParseLine(line) == Some((k, v))
    ensures Reads(line, k, v)
  {
    hide Text.Trim, Text.IsSpace, Text.Trimmed, Text.Spaces;
    var t := Text.Trim(line);
    var eq := IndexOf(t, '=');
    IndexOfFirst(t, '=');
    var head, tail := t[..eq], t[eq + 1..];
    assert t == head + "=" + tail;
    HeadIsKey(line, t, head);
    TrimFacts(tail);
    var a, d := Text.TrimTakesOff(line);
    var p, b := Text.TrimTakesOff(head);
    var c, e := Text.TrimTakesOff(tail);
    Regroup(a, p, k, b, c, v, e, d);
    SpacesJoin(a, p);
    SpacesJoin(e, d);
  }

  lemma HeadIsKey(line: string, t: string, head: string)
    requires t == Text.Trim(line) && head <= t && head != "" && t[0] != '#' && '=' !in head
    ensures var k := Text.Trim(head);
      k != "" && Text.Trimmed(k) && k[0] != '#' && '=' !in k
  {
    hide Text.Trim, Text.IsSpace;
    TrimFacts(line);
    TrimFacts(head);
  }

  lemma Regroup(a: string, p: string, k: string, b: string, c: string, v: string, e: string, d: string)
    ensures a + ((p + k + b) + "=" + (c + v + e)) + d == (a + p) + k + b + "=" + c + v + (e + d)
  {
  }

  lemma SpacesJoin(a: string, b: string)
    requires Text.Spaces(a) && Text.Spaces(b)
    ensures Text.Spaces(a + b)
  {
  }

  /** The value of a key is that of the last line that reads so; a key that no line has is not there. */
  lemma {:induction false} LastLineWins(lines: seq<string>, k: string)
    ensures k in ParseLines(lines) <==> exists i, v :: 0 <= i < |lines| && Reads(lines[i], k, v)
    ensures forall i, v :: 0 <= i < |lines| && Reads(lines[i], k, v) &&
                           (forall j, w :: i < j < |lines| ==> !Reads(lines[j], k, w)) ==>
      k in ParseLines(lines) && ParseLines(lines)[k] == v
    decreases |lines|
  {
    hide Reads, ParseLine;
    if lines == [] {
    } else {
      var n := |lines| - 1;
      var front, last := lines[..n], lines[n];
      LastLineWins(front, k);
      forall v ensures ParseLine(last) == Some((k, v)) <==> Reads(last, k, v) { ParseLineIff(last, k, v); }
      assert forall i :: 0 <= i < n ==> front[i] == lines[i];
      if k in ParseLines(lines) {
        if ParseLine(last).Some? && ParseLine(last).value.0 == k {
          assert Reads(lines[n], k, ParseLine(last).value.1);
        } else {
          var i, v :| 0 <= i < |front| && Reads(front[i], k, v);
          assert Reads(lines[i], k, v);
        }
      }
      forall i, v | 0 <= i < |lines| && Reads(lines[i], k, v) &&
                    (forall j, w :: i < j < |lines| ==> !Reads(lines[j], k, w))
        ensures k in ParseLines(lines) && ParseLines(lines)[k] == v
      {
        if i < n {
          assert Reads(front[i], k, v);
          assert forall w :: !Reads(lines[n], k, w);
          forall j, w | i < j < n ensures !Reads(front[j], k, w) { assert !Reads(lines[j], k, w); }
        }
      }
      forall i, v | 0 <= i < |lines| && Reads(lines[i], k, v) ensures k in ParseLines(lines) {
        if i < n { assert Reads(front[i], k, v); }
      }
    }
  }

  /** Lines ended by a line feed, with or without a carriage return before it; the last one has no end. */
  function Glue(lines: seq<string>, crlf: seq<bool>): string
    requires |lines| == |crlf| + 1
  {
    if crlf == [] then lines[0]
    else lines[0] + (if crlf[0] then "\r" else "") + "\n" + Glue(lines[1..], crlf[1..])
  }

  /** Both line ends are taken off. */
  lemma {:induction false} LinesGlued(lines: seq<string>, crlf: seq<bool>)
    requires |lines| == |crlf| + 1
    requires forall i :: 0 <= i < |lines| ==> '\n' !in lines[i]
    requires forall i :: 0 <= i < |crlf| ==> lines[i] == "" || lines[i][|lines[i]| - 1] != '\r'
    ensures Lines(Glue(lines, crlf)) == lines
    decreases |crlf|
  {
    if crlf == [] {
      LinesWhole(lines[0]);
      assert lines == [lines[0]];
    } else {
      hide Lines, DropCr;
      var head, rest := lines[0] + (if crlf[0] then "\r" else ""), Glue(lines[1..], crlf[1..]);
      LinesGlued(lines[1..], crlf[1..]);
      assert Glue(lines, crlf) == head + ['\n'] + rest;
      LinesHead(head, rest);
      Uncarried(lines[0]);
      assert lines == [lines[0]] + lines[1..];
    }
  }

  lemma LinesWhole(s: string)
    requires '\n' !in s
    ensures Lines(s) == [s]
  {
    Text.SplitWhole(s, '\n');
  }

  lemma LinesHead(head: string, rest: string)
    requires '\n' !in head
    ensures Lines(head + ['\n'] + rest) == [DropCr(head)] + Lines(rest)
  {
    hide DropCr;
    Text.SplitHead(head, rest, '\n');
  }

  lemma Uncarried(s: string)
    requires s == "" || s[|s| - 1] != '\r'
    ensures DropCr(s + "\r") == s && DropCr(s) == s && s + "" == s
  {
  }

  // ----- the parser's image

  lemma ParsedPrintable(line: string)
    requires '\n' !in line && ParseLine(line).Some?
    ensures Printable(ParseLine(line).value.0, ParseLine(line).value.1)
  {
    hide Text.Trim, Text.IsSpace;
    var t := Text.Trim(line);
    var eq := IndexOf(t, '=');
    TrimFacts(line);
    IndexOfFirst(t, '=');
    assert t[..eq][0] == t[0];
    TrimFacts(t[..eq]);
    TrimFacts(t[eq + 1..]);
    assert forall c :: c in t[..eq] ==> c in t;
    assert forall c :: c in t[eq + 1..] ==> c in t;
  }

  lemma {:induction false} LinesPrintable(lines: seq<string>)
    requires forall i :: 0 <= i < |lines| ==> '\n' !in lines[i]
    ensures AllPrintable(ParseLines(lines))
    decreases |lines|
  {
    hide Printable;
    if lines == [] {
    } else {
      var last := lines[|lines| - 1];
      LinesPrintable(lines[..|lines| - 1]);
      if ParseLine(last).Some? { ParsedPrintable(last); }
    }
  }

  /** Whatever the text, the parser yields only entries that survive being written. */
  lemma ParseIsPrintable(text: string)
    ensures AllPrintable(Parse(text))
  {
    Text.SplitFree(text, '\n');
    LinesPrintable(Lines(text));
  }

  // ----- round trip

  lemma LineRoundTrip(k: string, v: string)
    requires Printable(k, v)
    ensures ParseLine(k + "=" + v) == Some((k, v)) && '\n' !in k + "=" + v
  {
    hide Text.Trim;
    var line := k + "=" + v;
    assert !Text.IsSpace('=');
    assert line[0] == k[0] && line[|line| - 1] == if v == "" then '=' else v[|v| - 1];
    TrimFacts(line);
    assert line[..|k|] == k && line[|k| + 1..] == v;
    IndexOfAt(line, '=', |k|);
    TrimFacts(k);
    TrimFacts(v);
  }

  lemma TrimmedKeepsCr(s: string)
    requires Text.Trimmed(s)
    ensures DropCr(s) == s
  {
    assert Text.IsSpace('\r');
  }

  lemma {:induction false} EntriesRoundTrip(m: Env, keys: seq<string>, lines: seq<string>)
    requires Elems(keys) <= m.Keys && |lines| == |keys|
    requires forall i :: 0 <= i < |keys| ==> keys[i] in m && ParseLine(lines[i]) == Some((keys[i], m[keys[i]]))
    ensures ParseLines(lines) == map k | k in Elems(keys) :: m[k]
    decreases |keys|
  {
    hide ParseLine;
    if keys == [] {
    } else {
      var n := |keys| - 1;
      assert keys[..n] + [keys[n]] == keys;
      assert Elems(keys) == Elems(keys[..n]) + {keys[n]};
      EntriesRoundTrip(m, keys[..n], lines[..n]);
    }
  }

  lemma {:induction false} SkipFront(skipped: seq<string>, lines: seq<string>)
    requires ParseLines(skipped) == map[]
    ensures ParseLines(skipped + lines) == ParseLines(lines)
    decreases |lines|
  {
    hide ParseLine;
    if lines == [] {
      assert skipped + lines == skipped;
    } else {
      var n := |lines| - 1;
      assert (skipped + lines)[..|skipped| + n] == skipped + lines[..n];
      SkipFront(skipped, lines[..n]);
    }
  }

  lemma CommentSkipped(line: string)
    requires line != "" && line[0] == '#'
    ensures ParseLine(line).None?
  {
    hide Text.Trim, IndexOf;
    assert !Text.IsSpace('#');
    TrimFacts(line);
  }

  lemma HeaderText()
    ensures HEADER != "" && HEADER[0] == '#' && HEADER[|HEADER| - 1] == 'p' && '\n' !in HEADER
  {
  }

  lemma HeaderSkipped()
    ensures '\n' !in HEADER && Text.Trimmed(HEADER)
    ensures ParseLines([HEADER, ""]) == map[]
  {
    hide ParseLine, HEADER;
    HeaderText();
    CommentSkipped(HEADER);
    BlankSkipped();
    assert !Text.IsSpace('#') && !Text.IsSpace('p');
    var one, two := [HEADER], [HEADER, ""];
    assert two[..1] == one && one[..0] == [];
    assert ParseLines(one) == Put(ParseLines(one[..0]), ParseLine(HEADER));
  }

  lemma BlankSkipped()
    ensures ParseLine("").None?
  {
  }

  lemma RenderedLines(m: Env, keys: seq<string>)
    requires Elems(keys) == m.Keys && AllPrintable(m)
    ensures Lines(Render(m, keys)) == [HEADER, ""] + EntryLines(m, keys) + [""]
    ensures forall i :: 0 <= i < |keys| ==>
      keys[i] in m && ParseLine(EntryLines(m, keys)[i]) == Some((keys[i], m[keys[i]]))
  {
    hide ParseLine, Text.Trim;
    var all := [HEADER, ""] + EntryLines(m, keys) + [""];
    HeaderSkipped();
    forall i | 0 <= i < |keys|
      ensures keys[i] in m && ParseLine(EntryLines(m, keys)[i]) == Some((keys[i], m[keys[i]]))
      ensures '\n' !in EntryLines(m, keys)[i] && DropCr(EntryLines(m, keys)[i]) == EntryLines(m, keys)[i]
    {
      assert keys[i] in Elems(keys);
      EntryFacts(keys[i], m[keys[i]]);
    }
    TrimmedKeepsCr(HEADER);
    Text.SplitJoin(all, '\n');
  }

  /** The written file, line by line: a comment, an empty line, one line per entry, and the last line end. */
  lemma RenderReads(m: Env, keys: seq<string>)
    requires Elems(keys) == m.Keys && AllPrintable(m)
    ensures var lines := Lines(Render(m, keys));
      |lines| == |keys| + 3 && lines[0] == "# Auto-generated by OmniRoute bootstrap" && lines[1] == "" &&
      lines[|keys| + 2] == "" &&
      forall i :: 0 <= i < |keys| ==> keys[i] in m && lines[i + 2] == keys[i] + "=" + m[keys[i]]
  {
    hide ParseLine;
    RenderedLines(m, keys);
  }

  lemma EntryFacts(k: string, v: string)
    requires Printable(k, v)
    ensures var line := k + "=" + v;
      ParseLine(line) == Some((k, v)) && '\n' !in line && DropCr(line) == line
  {
    LineRoundTrip(k, v);
    var line := k + "=" + v;
    assert line[|line| - 1] == if v == "" then '=' else v[|v| - 1];
    assert Text.IsSpace('\r');
  }

  lemma PrintableRoundTrip(m: Env, keys: seq<string>)
    requires Elems(keys) == m.Keys && AllPrintable(m)
    ensures Parse(Render(m, keys)) == m
  {
    hide ParseLine, Lines, Printable;
    var entries := EntryLines(m, keys);
    var front := [HEADER, ""] + entries;
    RenderedLines(m, keys);
    HeaderSkipped();
    BlankSkipped();
    EntriesRoundTrip(m, keys, entries);
    SkipFront([HEADER, ""], entries);
    assert (front + [""])[..|front|] == front;
    assert m == map k | k in Elems(keys) :: m[k];
  }

  /** Parsing what the writer prints gives back the map, exactly when each entry survives being written. */
  lemma RoundTripIff(m: Env, keys: seq<string>)
    requires Elems(keys) == m.Keys
    ensures Parse(Render(m, keys)) == m <==> AllPrintable(m)
  {
    hide Parse, Render, AllPrintable;
    ParseIsPrintable(Render(m, keys));
    if AllPrintable(m) { PrintableRoundTrip(m, keys); }
  }

  // ----- the parser as it runs

  method ParseEnvFile(file: Option<string>) returns (env: Env)
    ensures env == if file.Some? then Parse(file.value) else map[]
  {
    env := map[];
    if file.None? { return; }
    var lines := Lines(file.value);
    for i := 0 to |lines|
      invariant env == ParseLines(lines[..i])
    {
      assert lines[..i + 1][..i] == lines[..i];
      var t := Text.Trim(lines[i]);
      if t == "" || t[0] == '#' { continue; }
      var eq := IndexOf(t, '=');
      IndexOfFirst(t, '=');
      if eq < 1 { continue; }
      env := env[Text.Trim(t[..eq]) := Text.Trim(t[eq + 1..])];
    }
    assert lines[..|lines|] == lines;
  }
}
