/**
 The message rendering of the contact-form e-mail: every line feed of the
 visitor's message becomes an HTML `<br>` (a global regular-expression
 replace). Alongside the recursive definition sit an independent reference
 definition (split on line feeds, join with `<br>`) and a count of the
 `<br>` markers in the result.
 */
module Newlines {

  /** The HTML line break written in place of each line feed. */
  const Break: string := "<br>"

  /** Number of line feeds in `s`. */
  function CountNewlines(s: string): nat
  {
    if s == [] then 0 else (if s[0] == '\n' then 1 else 0) + CountNewlines(s[1..])
  }

  /** `s` with every `\n` replaced by `<br>`. No line feed survives, and each
      replaced one adds three characters. */
  function ReplaceNewlines(s: string): (r: string)
    ensures '\n' !in r
    ensures |r| == |s| + 3 * CountNewlines(s)
  {
    if s == [] then []
    else (if s[0] == '\n' then Break else [s[0]]) + ReplaceNewlines(s[1..])
  }

  /** The replacement changes nothing exactly when there is nothing to replace. */
  lemma {:induction false} ReplaceNewlinesIdentity(s: string)
    ensures ReplaceNewlines(s) == s <==> '\n' !in s
  {
    if '\n' !in s {
      NewlineFreeUnchanged(s);
    } else {
      NewlinesPositive(s);
    }
  }

  /** A text holding a line feed counts at least one. */
  lemma {:induction false} NewlinesPositive(s: string)
    requires '\n' in s
    ensures CountNewlines(s) > 0
  {
    if s[0] != '\n' {
      var k :| 0 <= k < |s| && s[k] == '\n';
      assert s[1..][k - 1] == '\n';
      NewlinesPositive(s[1..]);
    }
  }

  lemma {:induction false} NewlineFreeUnchanged(s: string)
    requires '\n' !in s
    ensures ReplaceNewlines(s) == s
  {
    if s != [] {
      assert s[0] in s;
      assert forall k :: 0 <= k < |s[1..]| ==> s[1..][k] == s[k + 1];
      assert '\n' !in s[1..];
      NewlineFreeUnchanged(s[1..]);
    }
  }

  /** The replacement works character by character, so it distributes over
      concatenation. */
  lemma {:induction false} ReplaceNewlinesAppend(a: string, b: string)
    ensures ReplaceNewlines(a + b) == ReplaceNewlines(a) + ReplaceNewlines(b)
  {
    if a == [] {
      assert a + b == b;
    } else {
      assert (a + b)[0] == a[0];
      assert (a + b)[1..] == a[1..] + b;
      ReplaceNewlinesAppend(a[1..], b);
    }
  }

  /** Two newline-free lines joined by one line feed render as the two lines
      joined by one `<br>`. */
  lemma ReplaceSingleNewline(a: string, b: string)
    requires '\n' !in a && '\n' !in b
    ensures ReplaceNewlines(a + ("\n" + b)) == a + (Break + b)
  {
    ReplaceNewlinesAppend(a, "\n" + b);
    BreakThenLine(b);
    NewlineFreeUnchanged(a);
  }

  lemma BreakThenLine(b: string)
    requires '\n' !in b
    ensures ReplaceNewlines("\n" + b) == Break + b
  {
    NewlineFreeUnchanged(b);
    ReplaceCons('\n', b);
  }

  /** Reference definition, part one: the pieces of `s` between line feeds
      (`s.split("\n")`). There is always one more piece than line feeds. */
  function SplitLines(s: string): (parts: seq<string>)
    ensures |parts| == CountNewlines(s) + 1
    ensures forall i :: 0 <= i < |parts| ==> '\n' !in parts[i]
  {
    if s == [] then [[]]
    else
      var rest := SplitLines(s[1..]);
      if s[0] == '\n' then [[]] + rest
      else [[s[0]] + rest[0]] + rest[1..]
  }

  /** Reference definition, part two: the pieces glued with `sep`
      (`parts.join(sep)`). */
  function JoinWith(parts: seq<string>, sep: string): string
    requires |parts| > 0
  {
    if |parts| == 1 then parts[0]
    else parts[0] + sep + JoinWith(parts[1..], sep)
  }

  /** Splitting on line feeds and joining with a line feed gives back the
      original text. */
  lemma {:induction false} JoinSplitLines(s: string)
    ensures JoinWith(SplitLines(s), "\n") == s
  {
    if s != [] {
      var c, t := s[0], s[1..];
      assert s == [c] + t;
      var rest := SplitLines(t);
      JoinSplitLines(t);
      if c == '\n' {
        assert SplitLines(s) == [[]] + rest;
        JoinConsEmpty(rest, "\n");
      } else {
        assert SplitLines(s) == [[c] + rest[0]] + rest[1..];
        JoinConsFirst(c, rest, "\n");
      }
    }
  }

  /** Joining newline-free pieces with a line feed and splitting again gives
      back the pieces. */
  lemma {:induction false} SplitJoinLines(parts: seq<string>)
    requires |parts| > 0
    requires forall i :: 0 <= i < |parts| ==> '\n' !in parts[i]
    ensures SplitLines(JoinWith(parts, "\n")) == parts
  {
    if |parts| == 1 {
      SplitNewlineFree(parts[0]);
    } else {
      SplitJoinLines(parts[1..]);
      var tail := JoinWith(parts[1..], "\n");
      SplitAppendBreak(parts[0], tail);
      assert parts == [parts[0]] + parts[1..];
    }
  }

  lemma {:induction false} SplitNewlineFree(s: string)
    requires '\n' !in s
    ensures SplitLines(s) == [s]
  {
    if s != [] {
      assert s[0] in s;
      assert forall k :: 0 <= k < |s[1..]| ==> s[1..][k] == s[k + 1];
      SplitNewlineFree(s[1..]);
      assert s == [s[0]] + s[1..];
    }
  }

  /** Splitting `a + "\n" + b` with `a` newline-free starts a new piece at the
      line feed. */
  lemma {:induction false} SplitAppendBreak(a: string, b: string)
    requires '\n' !in a
    ensures SplitLines(a + "\n" + b) == [a] + SplitLines(b)
  {
    if a == [] {
      assert a + "\n" + b == [('\n')] + b;
      assert ([('\n')] + b)[1..] == b;
    } else {
      var s := a + "\n" + b;
      assert s[0] == a[0];
      assert a[0] in a;
      assert s[1..] == a[1..] + "\n" + b;
      assert forall k :: 0 <= k < |a[1..]| ==> a[1..][k] == a[k + 1];
      SplitAppendBreak(a[1..], b);
      assert a == [a[0]] + a[1..];
    }
  }

  /** Prefixing the first piece is prefixing the joined text. */
  lemma {:induction false} JoinConsFirst(c: char, parts: seq<string>, sep: string)
    requires |parts| > 0
    ensures JoinWith([[c] + parts[0]] + parts[1..], sep) == [c] + JoinWith(parts, sep)
  {
    var moved := [[c] + parts[0]] + parts[1..];
    assert moved[0] == [c] + parts[0];
    assert moved[1..] == parts[1..];
  }

  /** The replacement is the reference definition: split the message on line
      feeds and join the pieces with `<br>`. */
  lemma {:induction false} ReplaceNewlinesIsSplitJoin(s: string)
    ensures ReplaceNewlines(s) == JoinWith(SplitLines(s), Break)
  {
    if s != [] {
      var c, t := s[0], s[1..];
      assert s == [c] + t;
      var rest := SplitLines(t);
      ReplaceNewlinesIsSplitJoin(t);
      ReplaceCons(c, t);
      if c == '\n' {
        assert SplitLines(s) == [[]] + rest;
        JoinConsEmpty(rest, Break);
      } else {
        assert SplitLines(s) == [[c] + rest[0]] + rest[1..];
        JoinConsFirst(c, rest, Break);
      }
    }
  }

  /** An empty first piece contributes just the separator. */
  lemma JoinConsEmpty(parts: seq<string>, sep: string)
    requires |parts| > 0
    ensures JoinWith([[]] + parts, sep) == sep + JoinWith(parts, sep)
  {
    assert ([[]] + parts)[1..] == parts;
  }

  /** Number of positions of `s` at which a `<br>` marker starts. */
  function CountBreaks(s: string): nat
  {
    if s == [] then 0
    else (if Break <= s then 1 else 0) + CountBreaks(s[1..])
  }

  /** A sequence starting with `x` is a prefix of one starting with `y`
      iff the heads agree and the tails are prefixes. */
  lemma ConsPrefix(x: char, p: string, y: char, t: string)
    ensures [x] + p <= [y] + t <==> x == y && p <= t
  {
    var a, b := [x] + p, [y] + t;
    if a <= b {
      assert a[0] == b[0];
      assert forall k :: 0 <= k < |p| ==> p[k] == a[k + 1] == b[k + 1] == t[k];
    }
    if x == y && p <= t {
      assert forall k :: 0 < k < |a| ==> a[k] == p[k - 1] == t[k - 1] == b[k];
    }
  }

  /** A character other than `<` cannot start a marker. */
  lemma CountBreaksSkip(c: char, t: string)
    requires c != '<'
    ensures CountBreaks([c] + t) == CountBreaks(t)
  {
    assert ([c] + t)[1..] == t;
    ConsPrefix('<', "br>", c, t);
    assert Break == ['<'] + "br>";
  }

  /** The replacement of a text with a known first character. */
  lemma ReplaceCons(c: char, t: string)
    ensures ReplaceNewlines([c] + t) == (if c == '\n' then Break else [c]) + ReplaceNewlines(t)
  {
    assert ([c] + t)[0] == c;
    assert ([c] + t)[1..] == t;
  }

  /** A prefix made of neither `<` nor line feeds is unaffected by the
      replacement: it starts the rendered text iff it starts the original. */
  lemma {:induction false} PrefixPreserved(p: string, t: string)
    requires '\n' !in p && '<' !in p
    ensures p <= ReplaceNewlines(t) <==> p <= t
  {
    if p != [] && t != [] {
      var x, q := p[0], p[1..];
      var y, u := t[0], t[1..];
      TailKeepsAbsence(p);
      assert p == [x] + q;
      assert t == [y] + u;
      ReplaceCons(y, u);
      ConsPrefix(x, q, y, u);
      if y == '\n' {
        PrefixNotAtBreak(x, q, ReplaceNewlines(u));
      } else {
        PrefixPreserved(q, u);
        ConsPrefix(x, q, y, ReplaceNewlines(u));
      }
    }
  }

  /** What a sequence does not contain, its tail does not contain. */
  lemma TailKeepsAbsence(p: string)
    requires p != []
    ensures p[0] in p
    ensures forall c :: c !in p ==> c !in p[1..]
  {
    assert forall k :: 0 <= k < |p[1..]| ==> p[1..][k] == p[k + 1];
  }

  /** Text starting with something other than `<` is no prefix of text
      starting with a `<br>`. */
  lemma PrefixNotAtBreak(x: char, q: string, rest: string)
    requires x != '<'
    ensures !([x] + q <= Break + rest)
  {
    assert Break + rest == ['<'] + ("br>" + rest);
    ConsPrefix(x, q, '<', "br>" + rest);
  }

  /** A character other than a line feed starts a marker in the rendered
      text iff it starts one in the original. */
  lemma StartsWithBreakPreserved(c: char, t: string)
    requires c != '\n'
    ensures Break <= [c] + ReplaceNewlines(t) <==> Break <= [c] + t
  {
    assert Break == ['<'] + "br>";
    ConsPrefix('<', "br>", c, ReplaceNewlines(t));
    ConsPrefix('<', "br>", c, t);
    if c == '<' {
      PrefixPreserved("br>", t);
    }
  }

  /** A leading `<br>` is one marker; its other three characters start none. */
  lemma CountBreaksOfBreak(rest: string)
    ensures CountBreaks(Break + rest) == 1 + CountBreaks(rest)
  {
    assert Break + rest == ['<'] + (['b'] + (['r'] + (['>'] + rest)));
    assert (Break + rest)[1..] == ['b'] + (['r'] + (['>'] + rest));
    CountBreaksSkip('b', ['r'] + (['>'] + rest));
    CountBreaksSkip('r', ['>'] + rest);
    CountBreaksSkip('>', rest);
  }

  lemma NewlinesCons(c: char, t: string)
    ensures CountNewlines([c] + t) == CountNewlines(t) + (if c == '\n' then 1 else 0)
  {
    assert ([c] + t)[1..] == t;
  }

  /** Each line feed of the message yields exactly one `<br>` marker, and the
      replacement neither creates nor destroys any other marker. */
  lemma {:induction false} BreakCount(s: string)
    ensures CountBreaks(ReplaceNewlines(s)) == CountNewlines(s) + CountBreaks(s)
  {
    if s != [] {
      var c, t := s[0], s[1..];
      assert s == [c] + t;
      var rt := ReplaceNewlines(t);
      BreakCount(t);
      ReplaceCons(c, t);
      NewlinesCons(c, t);
      if c == '\n' {
        CountBreaksOfBreak(rt);
        CountBreaksSkip('\n', t);
      } else {
        StartsWithBreakPreserved(c, t);
        assert ([c] + rt)[1..] == rt;
        assert ([c] + t)[1..] == t;
      }
    }
  }

  /** For a message that holds no literal `<br>`, the rendered text carries
      exactly one marker per line feed. */
  lemma BreakMarkersMatchNewlines(s: string)
    requires CountBreaks(s) == 0
    ensures CountBreaks(ReplaceNewlines(s)) == CountNewlines(s)
  {
    BreakCount(s);
  }
}
