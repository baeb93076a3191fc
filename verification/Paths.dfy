/**
  Request paths (sdk/transport.go:70-81): escaped arguments replace the placeholders {0},
  {1}, ... one after another. A char stands for one byte of a Go string.
 */
module Paths {
  import opened Options

  type Byte = c: char | c as int < 256
  type Text = seq<Byte>

  // ---------- Escaping ----------

  /** Unreserved characters, section 2.3 of RFC 3986. */
  predicate Unreserved(c: char) {
    'A' <= c <= 'Z' || 'a' <= c <= 'z' || '0' <= c <= '9' || c in "-_.~"
  }

  function HexDigit(n: nat): (c: Byte)
    requires n < 16
    ensures Unreserved(c)
  {
    if n < 10 then ('0' as int + n) as char else ('A' as int + n - 10) as char
  }

  function HexValue(c: char): Option<nat> {
    if '0' <= c <= '9' then Some(c as int - '0' as int)
    else if 'A' <= c <= 'F' then Some(c as int - 'A' as int + 10)
    else if 'a' <= c <= 'f' then Some(c as int - 'a' as int + 10)
    else None
  }

  /** url.QueryEscape on one byte. */
  function EscapeByte(c: Byte): Text {
    if Unreserved(c) then [c]
    else if c == ' ' then "+"
    else ['%', HexDigit(c as int / 16), HexDigit(c as int % 16)]
  }

  function QueryEscape(s: Text): Text {
    if s == [] then [] else EscapeByte(s[0]) + QueryEscape(s[1..])
  }

  /** strings.Replace(s, "+", "%20", -1). */
  function SpellSpaces(s: Text): Text {
    if s == [] then [] else (if s[0] == '+' then "%20" else [s[0]]) + SpellSpaces(s[1..])
  }

  function Escape(s: Text): Text {
    SpellSpaces(QueryEscape(s))
  }

  /** Percent-decoding, section 2.1 of RFC 3986; a plus sign stands for itself. */
  function Decode(s: string): Option<string> {
    if s == "" then Some("")
    else if s[0] != '%' then Prepend(s[0], Decode(s[1..]))
    else if |s| < 3 || HexValue(s[1]).None? || HexValue(s[2]).None? then None
    else Prepend((16 * HexValue(s[1]).value + HexValue(s[2]).value) as char, Decode(s[3..]))
  }

  function Prepend(c: char, rest: Option<string>): Option<string> {
    if rest.None? then None else Some([c] + rest.value)
  }

  lemma {:induction false} SpellAppend(s: Text, t: Text)
    ensures SpellSpaces(s + t) == SpellSpaces(s) + SpellSpaces(t)
  {
    if s == [] {
      assert s + t == t;
    } else {
      SpellAppend(s[1..], t);
      var head: Text := if s[0] == '+' then "%20" else [s[0]];
      assert (s + t)[0] == s[0] && (s + t)[1..] == s[1..] + t;
      assert head + (SpellSpaces(s[1..]) + SpellSpaces(t)) == (head + SpellSpaces(s[1..])) + SpellSpaces(t);
    }
  }

  /** The escaped form of one byte. */
  function Unit(c: Byte): Text {
    if Unreserved(c) then [c] else ['%', HexDigit(c as int / 16), HexDigit(c as int % 16)]
  }

  lemma EscapeHead(s: Text)
    requires s != []
    ensures Escape(s) == Unit(s[0]) + Escape(s[1..])
  {
    var e := EscapeByte(s[0]);
    SpellAppend(e, QueryEscape(s[1..]));
    if Unreserved(s[0]) || s[0] == ' ' {
      assert e[1..] == [];
    } else {
      var h, l := HexDigit(s[0] as int / 16), HexDigit(s[0] as int % 16);
      assert e[1..] == [h, l] && [h, l][1..] == [l] && [l][1..] == [];
      assert SpellSpaces([l]) == [l] && SpellSpaces([h, l]) == [h, l];
    }
    assert SpellSpaces(e) == Unit(s[0]);
  }

  lemma DecodeUnit(c: Byte, rest: string)
    ensures Decode(Unit(c) + rest) == Prepend(c, Decode(rest))
  {
    var s := Unit(c) + rest;
    if Unreserved(c) {
      assert s[1..] == rest;
    } else {
      assert s[3..] == rest;
    }
  }

  /** Decoding gives every argument back, spaces and literal plus and percent signs included. */
  lemma {:induction false} DecodeEscape(s: Text)
    ensures Decode(Escape(s)) == Some(s)
  {
    if s != [] {
      DecodeEscape(s[1..]);
      EscapeHead(s);
      DecodeUnit(s[0], Escape(s[1..]));
      assert [s[0]] + s[1..] == s;
    }
  }

  /** Escaped text holds unreserved characters and percent signs only, so neither braces nor slashes. */
  lemma {:induction false} EscapedAlphabet(s: Text)
    ensures forall c | c in Escape(s) :: Unreserved(c) || c == '%'
  {
    if s != [] {
      EscapedAlphabet(s[1..]);
      EscapeHead(s);
    }
  }

  /** Text is left as it is exactly when all of it is unreserved. */
  lemma {:induction false} EscapeExactly(s: Text)
    ensures |Escape(s)| >= |s|
    ensures Escape(s) == s <==> forall c | c in s :: Unreserved(c)
  {
    if s != [] {
      EscapeHead(s);
      EscapeExactly(s[1..]);
      assert [s[0]] + s[1..] == s;
      assert forall c | c in s :: c == s[0] || c in s[1..];
      if !Unreserved(s[0]) {
        assert |Escape(s)| > |s|;
      }
    }
  }

  lemma HexDigits(n: nat)
    requires n < 16
    ensures HexDigit(n) in "0123456789ABCDEF"
  {
    var digits := "0123456789ABCDEF";
    assert HexDigit(n) == digits[n];
  }

  /** Any other byte becomes a percent sign and two upper-case hexadecimal digits, a space "%20". */
  lemma EscapeOther(c: Byte)
    requires !Unreserved(c)
    ensures var e := Escape([c]);
            |e| == 3 && e[0] == '%' && e[1] in "0123456789ABCDEF" && e[2] in "0123456789ABCDEF"
  {
    EscapeHead([c]);
    HexDigits(c as int / 16);
    HexDigits(c as int % 16);
    assert [c][1..] == [] && Escape([]) == [];
  }

  lemma EscapedSpace()
    ensures Escape(" ") == "%20"
  {
    EscapeHead(" ");
    assert " "[1..] == [] && Escape([]) == [];
  }

  // ---------- Substitution ----------

  function Digits(n: nat): Text {
    if n < 10 then [('0' as int + n) as char] else Digits(n / 10) + [('0' as int + n % 10) as char]
  }

  function Number(s: string): int {
    if s == "" then 0 else 10 * Number(s[..|s| - 1]) + s[|s| - 1] as int - '0' as int
  }

  lemma {:induction false} DigitsAreDigits(n: nat)
    ensures Number(Digits(n)) == n && forall c | c in Digits(n) :: '0' <= c <= '9'
  {
    if n >= 10 {
      DigitsAreDigits(n / 10);
      assert Digits(n)[..|Digits(n)| - 1] == Digits(n / 10);
    } else {
      assert Digits(n)[..0] == "";
    }
  }

  function Placeholder(i: nat): string {
    "{" + Digits(i) + "}"
  }

  predicate StartsWith(s: string, prefix: string) {
    prefix <= s
  }

  /** strings.Replace(s, what, put, 1) for a non-empty `what`. */
  function ReplaceFirst(s: string, what: string, put: string): string {
    if StartsWith(s, what) then put + s[|what|..]
    else if s == "" then s
    else [s[0]] + ReplaceFirst(s[1..], what, put)
  }

  /** The path after the arguments from `i` on have been substituted. */
  function SubstituteFrom(path: string, args: seq<Text>, i: nat): string
    requires i <= |args|
    decreases |args| - i
  {
    if i == |args| then path else SubstituteFrom(ReplaceFirst(path, Placeholder(i), Escape(args[i])), args, i + 1)
  }

  method BuildPath(pattern: string, args: seq<Text>) returns (path: string)
    ensures path == SubstituteFrom(pattern, args, 0)
  {
    path := pattern;
    for i := 0 to |args|
      invariant SubstituteFrom(path, args, i) == SubstituteFrom(pattern, args, 0)
    {
      var escaped := SpellSpaces(QueryEscape(args[i]));
      path := ReplaceFirst(path, Placeholder(i), escaped);
    }
  }

  // ---------- Patterns as literal text and holes ----------

  datatype Token = Lit(text: string) | Hole(i: nat)

  predicate BraceFree(s: string) {
    '{' !in s && '}' !in s
  }

  /** Braces occur only in placeholders. */
  predicate Plain(tokens: seq<Token>) {
    forall t | t in tokens && t.Lit? :: BraceFree(t.text)
  }

  function Spell(t: Token): string {
    match t
    case Lit(text) => text
    case Hole(i) => Placeholder(i)
  }

  function Flatten(tokens: seq<Token>): string {
    if tokens == [] then "" else Spell(tokens[0]) + Flatten(tokens[1..])
  }

  /** Fills the first Hole(i). */
  function Plug(tokens: seq<Token>, i: nat, text: string): seq<Token> {
    if tokens == [] then []
    else if tokens[0] == Hole(i) then [Lit(text)] + tokens[1..]
    else [tokens[0]] + Plug(tokens[1..], i, text)
  }

  /** No match starts inside text without an opening brace. */
  lemma {:induction false} SkipText(text: string, s: string, what: string, put: string)
    requires '{' !in text && what != "" && what[0] == '{'
    ensures ReplaceFirst(text + s, what, put) == text + ReplaceFirst(s, what, put)
  {
    if text == "" {
      assert text + s == s;
    } else {
      SkipText(text[1..], s, what, put);
      var all := text + s;
      assert all[1..] == text[1..] + s;
      if StartsWith(all, what) {
        assert false;
      }
    }
  }

  /** Only one run of digits ends at a given closing brace. */
  lemma {:induction false} SameDigits(d: string, e: string, s: string)
    requires '}' !in d && '}' !in e && StartsWith(d + "}" + s, e + "}")
    ensures d == e
  {
    var all := d + "}" + s;
    assert all[0] == (e + "}")[0];
    if d != "" {
      assert e != "";
      assert all[1..] == d[1..] + "}" + s;
      assert (e + "}")[1..] == e[1..] + "}";
      SameDigits(d[1..], e[1..], s);
    }
  }

  /** Two placeholders at the same place are the same placeholder. */
  lemma PlaceholderMatch(i: nat, j: nat, s: string)
    ensures StartsWith(Placeholder(j) + s, Placeholder(i)) <==> i == j
  {
    DigitsAreDigits(i);
    DigitsAreDigits(j);
    var all := Placeholder(j) + s;
    assert all[1..] == Digits(j) + "}" + s;
    assert Placeholder(i)[1..] == Digits(i) + "}";
    if StartsWith(all, Placeholder(i)) {
      SameDigits(Digits(j), Digits(i), s);
    }
  }

  /** A replacement passes over any other placeholder. */
  lemma SkipPlaceholder(i: nat, j: nat, s: string, put: string)
    requires i != j
    ensures ReplaceFirst(Placeholder(j) + s, Placeholder(i), put)
              == Placeholder(j) + ReplaceFirst(s, Placeholder(i), put)
  {
    PlaceholderMatch(i, j, s);
    DigitsAreDigits(j);
    var tail := Digits(j) + "}";
    var all := Placeholder(j) + s;
    assert all[1..] == tail + s;
    SkipText(tail, s, Placeholder(i), put);
    assert all[0] == '{' && Placeholder(j) == "{" + tail;
  }

  /** One replacement in the text fills one hole of the pattern. */
  lemma {:induction false} ReplaceIsPlug(tokens: seq<Token>, i: nat, put: string)
    requires Plain(tokens)
    ensures ReplaceFirst(Flatten(tokens), Placeholder(i), put) == Flatten(Plug(tokens, i, put))
  {
    if tokens != [] {
      var rest := tokens[1..];
      var s := Flatten(rest);
      ReplaceIsPlug(rest, i, put);
      match tokens[0] {
        case Lit(text) => SkipText(text, s, Placeholder(i), put);
        case Hole(j) =>
          if i == j {
            PlaceholderMatch(i, i, s);
            assert (Placeholder(i) + s)[|Placeholder(i)|..] == s;
            assert Plug(tokens, i, put)[1..] == rest;
          } else {
            SkipPlaceholder(i, j, s, put);
          }
      }
    }
  }

  lemma {:induction false} PlugIsPlain(tokens: seq<Token>, i: nat, text: string)
    requires Plain(tokens) && BraceFree(text)
    ensures Plain(Plug(tokens, i, text))
  {
    if tokens != [] {
      PlugIsPlain(tokens[1..], i, text);
    }
  }

  /** All at once: the first hole of each number gets its argument, everything else stays. */
  function Simultaneous(tokens: seq<Token>, args: seq<Text>): seq<Token> {
    FillFrom(tokens, args, 0)
  }

  /** As Simultaneous, for the holes numbered `from` and up. */
  function FillFrom(tokens: seq<Token>, args: seq<Text>, from: nat): (filled: seq<Token>) {
    seq(|tokens|, k requires 0 <= k < |tokens| =>
      if tokens[k].Hole? && from <= tokens[k].i < |args| && tokens[k] !in tokens[..k]
      then Lit(Escape(args[tokens[k].i]))
      else tokens[k])
  }

  lemma {:induction false} PlugAt(tokens: seq<Token>, i: nat, text: string, k: nat)
    requires k < |tokens|
    ensures |Plug(tokens, i, text)| == |tokens|
    ensures Plug(tokens, i, text)[k]
            == if tokens[k] == Hole(i) && tokens[k] !in tokens[..k] then Lit(text) else tokens[k]
  {
    if tokens[0] == Hole(i) {
      if k > 0 {
        assert tokens[..k][0] == tokens[0];
      }
    } else if k > 0 {
      PlugAt(tokens[1..], i, text, k - 1);
      assert tokens[..k] == [tokens[0]] + tokens[1..][..k - 1];
    } else if |tokens| > 1 {
      PlugAt(tokens[1..], i, text, 0);
    }
  }

  lemma FillStep(tokens: seq<Token>, args: seq<Text>, from: nat)
    requires from < |args|
    ensures FillFrom(Plug(tokens, from, Escape(args[from])), args, from + 1) == FillFrom(tokens, args, from)
  {
    var text := Escape(args[from]);
    var plugged := Plug(tokens, from, text);
    if tokens != [] {
      PlugAt(tokens, from, text, 0);
    }
    forall k | 0 <= k < |tokens|
      ensures FillFrom(plugged, args, from + 1)[k] == FillFrom(tokens, args, from)[k]
    {
      PlugAt(tokens, from, text, k);
      if tokens[k].Hole? && from < tokens[k].i {
        forall j | 0 <= j < k ensures plugged[j] == tokens[k] <==> tokens[j] == tokens[k] {
          PlugAt(tokens, from, text, j);
        }
        assert tokens[k] in tokens[..k] <==> exists j :: 0 <= j < k && tokens[j] == tokens[k];
        assert plugged[k] in plugged[..k] <==> exists j :: 0 <= j < k && plugged[j] == plugged[k];
      }
    }
  }

  lemma {:induction false} SequentialFrom(tokens: seq<Token>, args: seq<Text>, i: nat)
    requires Plain(tokens) && i <= |args|
    decreases |args| - i
    ensures SubstituteFrom(Flatten(tokens), args, i) == Flatten(FillFrom(tokens, args, i))
  {
    if i == |args| {
      assert FillFrom(tokens, args, i) == tokens;
    } else {
      EscapedAlphabet(args[i]);
      ReplaceIsPlug(tokens, i, Escape(args[i]));
      PlugIsPlain(tokens, i, Escape(args[i]));
      SequentialFrom(Plug(tokens, i, Escape(args[i])), args, i + 1);
      FillStep(tokens, args, i);
    }
  }

  /** Substituting one argument after another is substituting them all at once. */
  lemma SequentialIsSimultaneous(tokens: seq<Token>, args: seq<Text>)
    requires Plain(tokens)
    ensures SubstituteFrom(Flatten(tokens), args, 0) == Flatten(Simultaneous(tokens, args))
  {
    SequentialFrom(tokens, args, 0);
  }

  // ---------- Braces outside placeholders ----------

  /** The pattern {{0}}: a placeholder inside another pair of braces. */
  const NESTED: seq<Token> := [Lit("{"), Hole(0), Lit("}")]

  /** An escaped argument reads as a number exactly when the argument is that number. */
  lemma EscapedNumber(arg: Text, j: nat)
    ensures Escape(arg) == Digits(j) <==> arg == Digits(j)
  {
    DigitsAreDigits(j);
    EscapeExactly(Digits(j));
    DecodeEscape(Digits(j));
    DecodeEscape(arg);
  }

  /** Text without an opening brace is left alone. */
  lemma {:induction false} NothingLeft(text: string, args: seq<Text>, i: nat)
    requires '{' !in text && i <= |args|
    decreases |args| - i
    ensures SubstituteFrom(text, args, i) == text
  {
    if i < |args| {
      SkipText(text, "", Placeholder(i), Escape(args[i]));
      assert text + "" == text;
      assert ReplaceFirst("", Placeholder(i), Escape(args[i])) == "";
      NothingLeft(text, args, i + 1);
    }
  }

  lemma InBraces(e: string, i: nat, put: string)
    requires BraceFree(e)
    ensures ReplaceFirst("{" + e + "}", Placeholder(i), put) == if e == Digits(i) then put else "{" + e + "}"
  {
    DigitsAreDigits(i);
    var all := "{" + e + "}";
    assert all[1..] == e + "}" && Placeholder(i)[1..] == Digits(i) + "}";
    if StartsWith(all, Placeholder(i)) {
      assert e + "}" + "" == e + "}";
      SameDigits(e, Digits(i), "");
      assert all[|Placeholder(i)|..] == "";
    } else {
      SkipText(e + "}", "", Placeholder(i), put);
      assert e + "}" + "" == e + "}" && ReplaceFirst("", Placeholder(i), put) == "";
    }
  }

  lemma EscapedBraceFree(s: Text)
    ensures BraceFree(Escape(s))
  {
    EscapedAlphabet(s);
  }

  /** Text in braces survives arguments whose numbers it does not spell ... */
  lemma {:induction false} BracesSurvive(e: string, braced: string, args: seq<Text>, i: nat)
    requires BraceFree(e) && braced == "{" + e + "}" && i <= |args| && forall j | i <= j < |args| :: e != Digits(j)
    decreases |args| - i
    ensures SubstituteFrom(braced, args, i) == braced
  {
    if i < |args| {
      InBraces(e, i, Escape(args[i]));
      BracesSurvive(e, braced, args, i + 1);
    }
  }

  /** ... and gives way to the argument whose number it does spell. */
  lemma {:induction false} BracesGiveWay(e: string, braced: string, args: seq<Text>, i: nat, j: nat)
    requires BraceFree(e) && braced == "{" + e + "}" && i <= j < |args| && e == Digits(j)
    decreases j - i
    ensures SubstituteFrom(braced, args, i) == Escape(args[j])
  {
    InBraces(e, i, Escape(args[i]));
    if i == j {
      EscapedBraceFree(args[j]);
      NothingLeft(Escape(args[j]), args, i + 1);
    } else {
      DigitsAreDigits(i);
      DigitsAreDigits(j);
      BracesGiveWay(e, braced, args, i + 1, j);
    }
  }

  /**
    With a placeholder inside another pair of braces, substituting one after another equals
    substituting all at once exactly when the argument does not spell a later one's number.
   */
  lemma NestedBraces(args: seq<Text>)
    requires args != []
    ensures SubstituteFrom(Flatten(NESTED), args, 0) == Flatten(Simultaneous(NESTED, args))
            <==> forall j | 1 <= j < |args| :: args[0] != Digits(j)
  {
    var e, braced := Escape(args[0]), "{" + Escape(args[0]) + "}";
    NestedFlat(args, braced);
    NestedLater(args, e, braced);
  }

  lemma NestedLater(args: seq<Text>, e: string, braced: string)
    requires args != [] && e == Escape(args[0]) && braced == "{" + e + "}"
    ensures SubstituteFrom(braced, args, 1) == braced <==> forall j | 1 <= j < |args| :: args[0] != Digits(j)
  {
    EscapedBraceFree(args[0]);
    LaterNumbers(args, e);
    if j :| 1 <= j < |args| && e == Digits(j) {
      BracesGiveWay(e, braced, args, 1, j);
      EscapedBraceFree(args[j]);
      assert braced[0] == '{';
    } else {
      BracesSurvive(e, braced, args, 1);
    }
  }

  lemma LaterNumbers(args: seq<Text>, e: string)
    requires args != [] && e == Escape(args[0])
    ensures (forall j | 1 <= j < |args| :: e != Digits(j)) <==> (forall j | 1 <= j < |args| :: args[0] != Digits(j))
  {
    forall j | 1 <= j < |args| ensures e != Digits(j) <==> args[0] != Digits(j) {
      EscapedNumber(args[0], j);
    }
  }

  lemma NestedFlat(args: seq<Text>, braced: string)
    requires args != [] && braced == "{" + Escape(args[0]) + "}"
    ensures Flatten(Simultaneous(NESTED, args)) == braced
    ensures SubstituteFrom(Flatten(NESTED), args, 0) == SubstituteFrom(braced, args, 1)
  {
    FlattenThree(NESTED);
    FlattenThree(Simultaneous(NESTED, args));
    assert Digits(0) == "0" && Placeholder(0) == "{0}" && Flatten(NESTED) == "{{0}}";
    FirstNested(Escape(args[0]));
  }

  lemma FirstNested(e: string)
    ensures ReplaceFirst("{{0}}", "{0}", e) == "{" + e + "}"
  {
    var all := "{{0}}";
    assert all[1] != "{0}"[1];
    assert all[1..] == "{0}}" && "{0}}"[..3] == "{0}" && "{0}}"[3..] == "}";
    assert ReplaceFirst("{0}}", "{0}", e) == e + "}";
  }

  lemma FlattenThree(tokens: seq<Token>)
    requires |tokens| == 3
    ensures Flatten(tokens) == Spell(tokens[0]) + Spell(tokens[1]) + Spell(tokens[2])
  {
    assert tokens[1..] == [tokens[1], tokens[2]] && [tokens[1], tokens[2]][1..] == [tokens[2]]
        && [tokens[2]][1..] == [];
    assert Flatten([tokens[2]]) == Spell(tokens[2]);
  }

  // ---------- Paths determine their arguments ----------

  predicate Distinct(tokens: seq<Token>) {
    forall j, k | 0 <= j < k < |tokens| :: tokens[k].Hole? ==> tokens[j] != tokens[k]
  }

  /** A placeholder ends the pattern or is followed by a slash. */
  predicate Delimited(tokens: seq<Token>) {
    forall k | 0 <= k < |tokens| - 1 :: tokens[k].Hole? ==> tokens[k + 1].Lit? && StartsWith(tokens[k + 1].text, "/")
  }

  predicate Segment(s: string) {
    '/' !in s
  }

  lemma {:induction false} SameSegment(x: string, y: string, r: string, q: string)
    requires Segment(x) && Segment(y) && x + r == y + q
    requires (r == "" || r[0] == '/') && (q == "" || q[0] == '/')
    ensures x == y && r == q
  {
    var s := x + r;
    if x != "" && y != "" {
      assert s[0] == x[0] == y[0];
      assert x[1..] + r == s[1..] == y[1..] + q;
      SameSegment(x[1..], y[1..], r, q);
    } else {
      assert x == "" ==> s == r;
      assert y == "" ==> s == q;
    }
  }

  /** Two fillings agree, or differ in a whole segment of the path. */
  predicate Comparable(u: seq<Token>, v: seq<Token>) {
    |u| == |v| &&
    forall k | 0 <= k < |u| ::
      u[k] == v[k] ||
      (&& u[k].Lit? && v[k].Lit? && Segment(u[k].text) && Segment(v[k].text)
       && (k + 1 < |u| ==> u[k + 1] == v[k + 1] && u[k + 1].Lit? && StartsWith(u[k + 1].text, "/")))
  }

  lemma {:induction false} SameText(u: seq<Token>, v: seq<Token>)
    requires Comparable(u, v) && Flatten(u) == Flatten(v)
    ensures u == v
  {
    if u != [] {
      var r, q := Flatten(u[1..]), Flatten(v[1..]);
      if u[0] == v[0] {
        assert r == Flatten(u)[|Spell(u[0])|..] == q;
      } else {
        if |u| > 1 {
          assert r == u[1].text + Flatten(u[1..][1..]) && q == v[1].text + Flatten(v[1..][1..]);
        }
        SameSegment(u[0].text, v[0].text, r, q);
      }
      SameText(u[1..], v[1..]);
      assert u == [u[0]] + u[1..] && v == [v[0]] + v[1..];
    }
  }

  lemma FilledSegment(tokens: seq<Token>, args: seq<Text>, k: nat)
    requires Distinct(tokens) && k < |tokens| && tokens[k].Hole? && tokens[k].i < |args|
    ensures Simultaneous(tokens, args)[k] == Lit(Escape(args[tokens[k].i])) && Segment(Escape(args[tokens[k].i]))
  {
    EscapedAlphabet(args[tokens[k].i]);
    forall j | 0 <= j < k ensures tokens[..k][j] != tokens[k] { }
  }

  lemma FillingsComparable(tokens: seq<Token>, args: seq<Text>, others: seq<Text>)
    requires Distinct(tokens) && Delimited(tokens) && |args| == |others|
    ensures Comparable(Simultaneous(tokens, args), Simultaneous(tokens, others))
  {
    var u, v := Simultaneous(tokens, args), Simultaneous(tokens, others);
    forall k | 0 <= k < |tokens| && u[k] != v[k]
      ensures u[k].Lit? && v[k].Lit? && Segment(u[k].text) && Segment(v[k].text)
      ensures k + 1 < |u| ==> u[k + 1] == v[k + 1] && u[k + 1].Lit? && StartsWith(u[k + 1].text, "/")
    {
      FilledSegment(tokens, args, k);
      FilledSegment(tokens, others, k);
    }
  }

  /**
    When every placeholder is a whole path segment, every argument has one, and no two are the same,
    different arguments give different paths.
   */
  lemma PathDeterminesArguments(tokens: seq<Token>, args: seq<Text>, others: seq<Text>)
    requires Plain(tokens) && Distinct(tokens) && Delimited(tokens)
    requires |args| == |others| && forall i | 0 <= i < |args| :: Hole(i) in tokens
    requires SubstituteFrom(Flatten(tokens), args, 0) == SubstituteFrom(Flatten(tokens), others, 0)
    ensures args == others
  {
    SequentialIsSimultaneous(tokens, args);
    SequentialIsSimultaneous(tokens, others);
    var u, v := Simultaneous(tokens, args), Simultaneous(tokens, others);
    FillingsComparable(tokens, args, others);
    SameText(u, v);
    forall i | 0 <= i < |args| ensures args[i] == others[i] {
      var k :| 0 <= k < |tokens| && tokens[k] == Hole(i);
      FilledSegment(tokens, args, k);
      FilledSegment(tokens, others, k);
      DecodeEscape(args[i]);
      DecodeEscape(others[i]);
    }
  }
}
