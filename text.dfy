/**
 * The pieces of Python's string semantics the preference core relies on:
 * `str.strip()` with no argument, and `repr()` of a string, which is what
 * an f-string shows for a string held inside a dict.
 */
module Text {

  /** `str.isspace()` for one character: the characters Python strips by default. */
  predicate IsSpace(c: char)
  {
    || c == ' ' || '\t' <= c <= '\r' || '\U{001C}' <= c <= '\U{001F}'
    || c == '\U{0085}' || c == '\U{00A0}' || c == '\U{1680}' || '\U{2000}' <= c <= '\U{200A}'
    || c == '\U{2028}' || c == '\U{2029}' || c == '\U{202F}' || c == '\U{205F}' || c == '\U{3000}'
  }

  /** `s.lstrip()`: what remains of `s` once leading whitespace is dropped. */
  function LStrip(s: string): (r: string)
    ensures |r| <= |s|
    ensures r != [] ==> !IsSpace(r[0])
  {
    if s != [] && IsSpace(s[0]) then LStrip(s[1..]) else s
  }

  /** `s.rstrip()`: what remains of `s` once trailing whitespace is dropped. */
  function RStrip(s: string): (r: string)
    ensures |r| <= |s|
    ensures r != [] ==> !IsSpace(r[|r| - 1])
  {
    if s != [] && IsSpace(s[|s| - 1]) then RStrip(s[..|s| - 1]) else s
  }

  /** `lstrip` keeps a suffix of `s` and drops only whitespace before it. */
  lemma {:induction false} LStripSlice(s: string)
    ensures LStrip(s) == s[|s| - |LStrip(s)|..]
    ensures forall k | 0 <= k < |s| - |LStrip(s)| :: IsSpace(s[k])
  {
    if s != [] && IsSpace(s[0]) {
      LStripSlice(s[1..]);
    }
  }

  /** `rstrip` keeps a prefix of `s` and drops only whitespace after it. */
  lemma {:induction false} RStripSlice(s: string)
    ensures RStrip(s) == s[..|RStrip(s)|]
    ensures forall k | |RStrip(s)| <= k < |s| :: IsSpace(s[k])
  {
    if s != [] && IsSpace(s[|s| - 1]) {
      RStripSlice(s[..|s| - 1]);
    }
  }

  /**
   * `s.strip()`: the slice of `s` left after whitespace is removed from both
   * ends. It starts and ends with a non-whitespace character.
   */
  function Strip(s: string): (r: string)
    ensures |r| <= |s|
    ensures r != [] ==> !IsSpace(r[0]) && !IsSpace(r[|r| - 1])
  {
    var l := LStrip(s);
    RStripSlice(l);
    RStrip(l)
  }

  /** Stripping leaves nothing exactly when the string is all whitespace. */
  lemma StripEmpty(s: string)
    ensures Strip(s) == [] <==> forall k | 0 <= k < |s| :: IsSpace(s[k])
  {
    var l := LStrip(s);
    LStripSlice(s);
    RStripSlice(l);
    if Strip(s) == [] {
      forall k | 0 <= k < |s| ensures IsSpace(s[k]) {
        if k >= |s| - |l| {
          assert s[k] == l[k - (|s| - |l|)];
        }
      }
    } else {
      assert !IsSpace(Strip(s)[0]);
      assert Strip(s)[0] == l[0] == s[|s| - |l|];
    }
  }

  /** Stripping is idempotent: a stripped string has nothing left to strip. */
  lemma StripIdempotent(s: string)
    ensures Strip(Strip(s)) == Strip(s)
  {
  }

  /** A string with non-whitespace ends is left as it is. */
  lemma StripTrimmed(s: string)
    requires s != [] ==> !IsSpace(s[0]) && !IsSpace(s[|s| - 1])
    ensures Strip(s) == s
  {
  }

  /** Stripping whitespace added around a string that has non-whitespace ends gives that string back. */
  lemma StripPadded(pre: string, s: string, post: string)
    requires forall k | 0 <= k < |pre| :: IsSpace(pre[k])
    requires forall k | 0 <= k < |post| :: IsSpace(post[k])
    requires s != [] ==> !IsSpace(s[0]) && !IsSpace(s[|s| - 1])
    ensures Strip(pre + s + post) == Strip(s)
  {
    if s == [] {
      StripAllSpace(pre, post);
    } else {
      assert pre + s + post == pre + (s + post);
      LStripPrefix(pre, s + post);
      RStripSuffix(s, post);
      assert Strip(pre + s + post) == s;
      StripTrimmed(s);
    }
  }

  lemma StripAllSpace(pre: string, post: string)
    requires forall k | 0 <= k < |pre| :: IsSpace(pre[k])
    requires forall k | 0 <= k < |post| :: IsSpace(post[k])
    ensures Strip(pre + [] + post) == []
  {
    var t := pre + [] + post;
    forall k | 0 <= k < |t| ensures IsSpace(t[k]) {
      if k < |pre| { assert t[k] == pre[k]; } else { assert t[k] == post[k - |pre|]; }
    }
    StripEmpty(t);
  }

  lemma {:induction false} LStripPrefix(pre: string, t: string)
    requires forall k | 0 <= k < |pre| :: IsSpace(pre[k])
    requires t != [] && !IsSpace(t[0])
    ensures LStrip(pre + t) == t
  {
    if pre != [] {
      assert (pre + t)[1..] == pre[1..] + t;
      LStripPrefix(pre[1..], t);
    }
  }

  lemma {:induction false} RStripSuffix(t: string, post: string)
    requires forall k | 0 <= k < |post| :: IsSpace(post[k])
    requires t != [] && !IsSpace(t[|t| - 1])
    ensures RStrip(t + post) == t
  {
    if post != [] {
      var p := post[..|post| - 1];
      assert (t + post)[..|t + post| - 1] == t + p;
      RStripSuffix(t, p);
    }
  }

  /** The escape sequence `repr` writes for one character inside quotes `q`. */
  function EscapeChar(c: char, q: char): string
  {
    if c == '\\' then "\\\\"
    else if c == '\n' then "\\n"
    else if c == '\r' then "\\r"
    else if c == '\t' then "\\t"
    else if c == q then ['\\', q]
    else [c]
  }

  /** The body of a string literal for `s` quoted with `q`. */
  function Escape(s: string, q: char): (r: string)
    ensures '\n' !in r
    ensures |r| >= |s|
  {
    if s == [] then [] else EscapeChar(s[0], q) + Escape(s[1..], q)
  }

  /** Reads the body of a string literal back: the partner of `Escape`. */
  function Unescape(t: string): string
  {
    if t == [] then []
    else if t[0] == '\\' && |t| >= 2 then
      (if t[1] == 'n' then "\n" else if t[1] == 'r' then "\r" else if t[1] == 't' then "\t" else [t[1]])
      + Unescape(t[2..])
    else [t[0]] + Unescape(t[1..])
  }

  /** One escaped character reads back as that character, whatever follows it. */
  lemma UnescapeEscapeChar(c: char, q: char, rest: string)
    requires q == '\'' || q == '"'
    ensures Unescape(EscapeChar(c, q) + rest) == [c] + Unescape(rest)
  {
    var e := EscapeChar(c, q);
    if |e| == 2 {
      assert (e + rest)[0] == '\\' && (e + rest)[1] == e[1];
      assert (e + rest)[2..] == rest;
    } else {
      assert (e + rest)[0] == c;
      assert (e + rest)[1..] == rest;
    }
  }

  /** Escaping loses nothing: reading the literal body back gives the string. */
  lemma {:induction false} UnescapeEscape(s: string, q: char)
    requires q == '\'' || q == '"'
    ensures Unescape(Escape(s, q)) == s
  {
    if s != [] {
      UnescapeEscape(s[1..], q);
      UnescapeEscapeChar(s[0], q, Escape(s[1..], q));
      assert [s[0]] + s[1..] == s;
    }
  }

  /**
   * `repr(s)`: single quotes unless `s` holds a single quote and no double
   * quote, with backslash, newline, carriage return, tab and the chosen
   * quote escaped.
   */
  function Repr(s: string): (r: string)
    ensures '\n' !in r
    ensures |r| >= |s| + 2
  {
    var q := if '\'' in s && '"' !in s then '"' else '\'';
    [q] + Escape(s, q) + [q]
  }

  /**
   * `repr` writes a literal that reads back to `s`: it opens and closes with
   * the same quote, double exactly when `s` holds a single quote and no
   * double quote, and its body unescapes to `s`.
   */
  lemma ReprReadsBack(s: string)
    ensures var r := Repr(s); r[0] == r[|r| - 1]
    ensures var r := Repr(s); r[0] == '"' <==> '\'' in s && '"' !in s
    ensures var r := Repr(s); r[0] == '"' || r[0] == '\''
    ensures var r := Repr(s); Unescape(r[1..|r| - 1]) == s
  {
    var q := if '\'' in s && '"' !in s then '"' else '\'';
    var r := Repr(s);
    assert r[1..|r| - 1] == Escape(s, q);
    UnescapeEscape(s, q);
  }
}
