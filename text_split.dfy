/** Python's two string splits used by the stream client: `s.split(sep)`
    with an explicit one-character separator, and `s.split()` on whitespace. */
module TextSplit {

  /** `s.split(sep)`: the pieces between separators, empty pieces kept. */
  function Split(s: string, sep: char): (r: seq<string>)
    ensures |r| >= 1
  {
    SplitFrom(s, sep, "")
  }

  /** `Split` continued after having read `cur` into the current piece. */
  function SplitFrom(s: string, sep: char, cur: string): (r: seq<string>)
    ensures |r| >= 1
    decreases |s|
  {
    if s == [] then [cur]
    else if s[0] == sep then [cur] + SplitFrom(s[1..], sep, "")
    else SplitFrom(s[1..], sep, cur + [s[0]])
  }

  /** `sep.join(pieces)`. */
  function Join(pieces: seq<string>, sep: char): string
  {
    if |pieces| <= 1 then (if pieces == [] then "" else pieces[0])
    else pieces[0] + [sep] + Join(pieces[1..], sep)
  }

  /** Number of occurrences of `c` in `s`. */
  function Count(s: string, c: char): nat
  {
    if s == [] then 0 else (if s[0] == c then 1 else 0) + Count(s[1..], c)
  }

  lemma {:induction false} SplitFromJoin(s: string, sep: char, cur: string)
    requires sep !in cur
    ensures Join(SplitFrom(s, sep, cur), sep) == cur + s
    ensures forall i :: 0 <= i < |SplitFrom(s, sep, cur)| ==> sep !in SplitFrom(s, sep, cur)[i]
    ensures |SplitFrom(s, sep, cur)| == Count(s, sep) + 1
    decreases |s|
  {
    if s == [] {
    } else if s[0] == sep {
      var rest := SplitFrom(s[1..], sep, "");
      SplitFromJoin(s[1..], sep, "");
      assert SplitFrom(s, sep, cur) == [cur] + rest;
      assert ([cur] + rest)[1..] == rest;
      assert cur + s == cur + [sep] + s[1..];
    } else {
      SplitFromJoin(s[1..], sep, cur + [s[0]]);
      assert cur + [s[0]] + s[1..] == cur + s;
    }
  }

  /** Joining the pieces of a split gives back the text; no piece holds
      the separator; there is one more piece than separators. */
  lemma SplitJoin(s: string, sep: char)
    ensures Join(Split(s, sep), sep) == s
    ensures forall i :: 0 <= i < |Split(s, sep)| ==> sep !in Split(s, sep)[i]
    ensures |Split(s, sep)| == Count(s, sep) + 1
  {
    SplitFromJoin(s, sep, "");
  }

  /** The characters for which Python's `str.isspace()` holds, which are
      what `str.split()` separates on: ASCII tab to carriage return, the
      four information separators `\x1c`-`\x1f`, space, and the Unicode
      spaces and line/paragraph separators. */
  predicate IsSpace(c: char)
  {
    || ('\t' <= c <= '\r')
    || ('\U{1C}' <= c <= ' ')
    || c == '\U{85}' || c == '\U{A0}' || c == '\U{1680}'
    || ('\U{2000}' <= c <= '\U{200A}')
    || c == '\U{2028}' || c == '\U{2029}' || c == '\U{202F}' || c == '\U{205F}' || c == '\U{3000}'
  }

  /** `s.split()`: the maximal runs of non-whitespace characters. */
  function Words(s: string): (r: seq<string>)
  {
    WordsFrom(s, "")
  }

  /** `Words` continued after having read `cur` into the current word. */
  function WordsFrom(s: string, cur: string): (r: seq<string>)
    decreases |s|
  {
    if s == [] then (if cur == [] then [] else [cur])
    else if IsSpace(s[0]) then (if cur == [] then [] else [cur]) + WordsFrom(s[1..], "")
    else WordsFrom(s[1..], cur + [s[0]])
  }

  /** The characters of `s` that are not whitespace, in order. */
  function NonSpace(s: string): string
  {
    if s == [] then "" else (if IsSpace(s[0]) then "" else [s[0]]) + NonSpace(s[1..])
  }

  function Concat(ws: seq<string>): string
  {
    if ws == [] then "" else ws[0] + Concat(ws[1..])
  }

  predicate IsWord(w: string)
  {
    w != [] && forall i :: 0 <= i < |w| ==> !IsSpace(w[i])
  }

  lemma {:induction false} WordsFromSpec(s: string, cur: string)
    requires forall i :: 0 <= i < |cur| ==> !IsSpace(cur[i])
    ensures forall i :: 0 <= i < |WordsFrom(s, cur)| ==> IsWord(WordsFrom(s, cur)[i])
    ensures Concat(WordsFrom(s, cur)) == cur + NonSpace(s)
    decreases |s|
  {
    if s == [] {
      if cur != [] { assert Concat([cur]) == cur + Concat([]); }
    } else if IsSpace(s[0]) {
      var head: seq<string> := if cur == [] then [] else [cur];
      var rest := WordsFrom(s[1..], "");
      WordsFromSpec(s[1..], "");
      ConcatAppend(head, rest);
      assert Concat(head) == cur by {
        if cur != [] { assert Concat([cur]) == cur + Concat([]); }
      }
      assert NonSpace(s) == NonSpace(s[1..]);
    } else {
      WordsFromSpec(s[1..], cur + [s[0]]);
      assert NonSpace(s) == [s[0]] + NonSpace(s[1..]);
    }
  }

  lemma {:induction false} ConcatAppend(a: seq<string>, b: seq<string>)
    ensures Concat(a + b) == Concat(a) + Concat(b)
    decreases |a|
  {
    if a != [] {
      assert (a + b)[1..] == a[1..] + b;
      ConcatAppend(a[1..], b);
    } else {
      assert a + b == b;
    }
  }

  /** Every word is a non-empty run without whitespace, and together the
      words are exactly the non-whitespace characters of `s`, in order. */
  lemma WordsSpec(s: string)
    ensures forall i :: 0 <= i < |Words(s)| ==> IsWord(Words(s)[i])
    ensures Concat(Words(s)) == NonSpace(s)
  {
    WordsFromSpec(s, "");
  }

  lemma {:induction false} WordsFromBreak(a: string, c: char, b: string, cur: string)
    requires IsSpace(c)
    ensures WordsFrom(a + [c] + b, cur) == WordsFrom(a, cur) + Words(b)
    decreases |a|
  {
    if a == [] {
      assert a + [c] + b == [c] + b;
      assert ([c] + b)[1..] == b;
      var head: seq<string> := if cur == [] then [] else [cur];
      assert WordsFrom(a, cur) == head;
    } else {
      assert (a + [c] + b)[0] == a[0] && (a + [c] + b)[1..] == a[1..] + [c] + b;
      if IsSpace(a[0]) {
        var head: seq<string> := if cur == [] then [] else [cur];
        WordsFromBreak(a[1..], c, b, "");
        assert head + (WordsFrom(a[1..], "") + Words(b)) == (head + WordsFrom(a[1..], "")) + Words(b);
      } else {
        WordsFromBreak(a[1..], c, b, cur + [a[0]]);
      }
    }
  }

  /** A whitespace character always ends a word: the words on either side
      of it are split independently, so words are maximal runs. */
  lemma WordsBreak(a: string, c: char, b: string)
    requires IsSpace(c)
    ensures Words(a + [c] + b) == Words(a) + Words(b)
  {
    WordsFromBreak(a, c, b, "");
  }

  lemma {:induction false} WordsFromAllSpace(s: string)
    requires forall i :: 0 <= i < |s| ==> IsSpace(s[i])
    ensures WordsFrom(s, "") == []
    decreases |s|
  {
    if s != [] {
      WordsFromAllSpace(s[1..]);
    }
  }

  /** A text of whitespace only has no words. */
  lemma WordsAllSpace(s: string)
    requires forall i :: 0 <= i < |s| ==> IsSpace(s[i])
    ensures Words(s) == []
  {
    WordsFromAllSpace(s);
  }

  lemma {:induction false} SplitFromNoSep(a: string, t: string, sep: char, cur: string)
    requires sep !in a
    ensures SplitFrom(a + t, sep, cur) == SplitFrom(t, sep, cur + a)
    decreases |a|
  {
    if a != [] {
      assert (a + t)[0] == a[0] && (a + t)[1..] == a[1..] + t;
      SplitFromNoSep(a[1..], t, sep, cur + [a[0]]);
      assert cur + [a[0]] + a[1..] == cur + a;
    } else {
      assert a + t == t && cur + a == cur;
    }
  }

  /** A text without the separator is a single piece. */
  lemma SplitSingle(a: string, sep: char)
    requires sep !in a
    ensures Split(a, sep) == [a]
  {
    SplitFromNoSep(a, "", sep, "");
    assert a + "" == a && "" + a == a;
  }

  /** The first piece runs up to the first separator. */
  lemma SplitFirst(a: string, b: string, sep: char)
    requires sep !in a
    ensures Split(a + [sep] + b, sep) == [a] + Split(b, sep)
  {
    SplitFromNoSep(a, [sep] + b, sep, "");
    assert a + [sep] + b == a + ([sep] + b);
    assert ([sep] + b)[1..] == b && "" + a == a;
  }

  lemma {:induction false} WordsFromRun(w: string, t: string, cur: string)
    requires forall i :: 0 <= i < |w| ==> !IsSpace(w[i])
    ensures WordsFrom(w + t, cur) == WordsFrom(t, cur + w)
    decreases |w|
  {
    if w != [] {
      assert (w + t)[0] == w[0] && (w + t)[1..] == w[1..] + t;
      WordsFromRun(w[1..], t, cur + [w[0]]);
      assert cur + [w[0]] + w[1..] == cur + w;
    } else {
      assert w + t == t && cur + w == cur;
    }
  }

  /** A word on its own is the only word. */
  lemma WordsSingle(w: string)
    requires IsWord(w)
    ensures Words(w) == [w]
  {
    WordsFromRun(w, "", "");
    assert w + "" == w && "" + w == w;
  }

  /** The first word runs up to the first whitespace character. */
  lemma WordsFirst(w: string, space: char, t: string)
    requires IsWord(w) && IsSpace(space)
    ensures Words(w + [space] + t) == [w] + Words(t)
  {
    WordsFromRun(w, [space] + t, "");
    assert w + [space] + t == w + ([space] + t);
    assert ([space] + t)[1..] == t && "" + w == w;
  }

  /** Three words separated by single whitespace characters. */
  lemma ThreeWords(a: string, b: string, c: string, space: char)
    requires IsWord(a) && IsWord(b) && IsWord(c) && IsSpace(space)
    ensures Words(a + [space] + b + [space] + c) == [a, b, c]
  {
    WordsSingle(c);
    WordsFirst(b, space, c);
    assert a + [space] + b + [space] + c == a + [space] + (b + [space] + c);
    WordsFirst(a, space, b + [space] + c);
  }

  /** Three pieces without the separator, joined by it. */
  lemma ThreePieces(a: string, b: string, c: string, sep: char)
    requires sep !in a && sep !in b && sep !in c
    ensures Split(a + [sep] + b + [sep] + c, sep) == [a, b, c]
  {
    SplitSingle(c, sep);
    SplitFirst(b, c, sep);
    assert a + [sep] + b + [sep] + c == a + [sep] + (b + [sep] + c);
    SplitFirst(a, b + [sep] + c, sep);
  }
}
