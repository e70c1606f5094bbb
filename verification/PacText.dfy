/**
 PAC result strings: parsing and printing lists of proxy directives.

 `urlOk` stands for `url.Parse` accepting a text; a parsed proxy URL is that text. Letters are upper-cased in the
 ASCII range.
 */
module PacText {
  import opened Prelude

  datatype Directive = Directive(kind: string, hostPort: string, proxyURL: Option<string>)

  const DIRECT := Directive("DIRECT", "", None)

  // ---- String helpers ----

  /** unicode.IsSpace */
  predicate IsSpace(c: char) {
    || '\t' <= c <= '\r' || c == ' ' || c == '\U{85}' || c == '\U{a0}' || c == '\U{1680}'
    || '\U{2000}' <= c <= '\U{200a}' || c == '\U{2028}' || c == '\U{2029}' || c == '\U{202f}' || c == '\U{205f}'
    || c == '\U{3000}'
  }

  function TrimLeft(s: string): string { if s != [] && IsSpace(s[0]) then TrimLeft(s[1..]) else s }

  function TrimRight(s: string): string {
    if s != [] && IsSpace(s[|s| - 1]) then TrimRight(s[..|s| - 1]) else s
  }

  function TrimSpace(s: string): string { TrimRight(TrimLeft(s)) }

  /** strings.Split(s, ";") */
  function Split(s: string): (parts: seq<string>)
    ensures |parts| > 0
  {
    if s == [] then [[]]
    else if s[0] == ';' then [[]] + Split(s[1..])
    else
      var rest := Split(s[1..]);
      [[s[0]] + rest[0]] + rest[1..]
  }

  /** The longest prefix without a space. */
  function Word(s: string): (w: string)
    ensures w <= s
  {
    if s == [] || IsSpace(s[0]) then [] else [s[0]] + Word(s[1..])
  }

  lemma {:induction false} TrimLeftShorter(s: string)
    ensures |TrimLeft(s)| <= |s| && (TrimLeft(s) != [] ==> !IsSpace(TrimLeft(s)[0]))
  {
    if s != [] && IsSpace(s[0]) {
      TrimLeftShorter(s[1..]);
    }
  }

  /** strings.Fields */
  function Fields(s: string): seq<string>
    decreases |s|
  {
    TrimLeftShorter(s);
    var t := TrimLeft(s);
    if t == [] then [] else [Word(t)] + Fields(t[|Word(t)|..])
  }

  function UpperChar(c: char): char { if 'a' <= c <= 'z' then c - 'a' + 'A' else c }

  function ToUpper(s: string): (r: string)
    ensures |r| == |s| && forall i | 0 <= i < |s| :: r[i] == UpperChar(s[i])
  {
    if s == [] then [] else [UpperChar(s[0])] + ToUpper(s[1..])
  }

  // ---- Printing and parsing ----

  function Format(d: Directive): string {
    if d.kind == "DIRECT" || d.hostPort == "" then "DIRECT" else d.kind + " " + d.hostPort
  }

  /** The directives' texts, separated by semicolons. */
  function Join(ds: seq<Directive>): string {
    if ds == [] then "" else if |ds| == 1 then Format(ds[0]) else Format(ds[0]) + ";" + Join(ds[1..])
  }

  function Scheme(kind: string): string {
    if kind == "HTTPS" then "https"
    else if kind == "SOCKS" || kind == "SOCKS4" then "socks4"
    else if kind == "SOCKS5" then "socks5"
    else "http"
  }

  function UrlText(kind: string, hostPort: string): string { Scheme(kind) + "://" + hostPort }

  /** One part between semicolons; blank parts and parts with an unparsable address give nothing. */
  function ParseItem(urlOk: string -> bool, part: string): Option<Directive> {
    var fields := Fields(TrimSpace(part));
    if fields == [] then None
    else
      var kind := ToUpper(fields[0]);
      if kind == "DIRECT" || |fields| == 1 then Some(DIRECT)
      else if urlOk(UrlText(kind, fields[1])) then
        Some(Directive(kind, fields[1], Some(UrlText(kind, fields[1]))))
      else None
  }

  function Present(items: seq<Option<Directive>>): seq<Directive> {
    if items == [] then []
    else
      var d := items[|items| - 1];
      Present(items[..|items| - 1]) + (if d.Some? then [d.value] else [])
  }

  function Items(urlOk: string -> bool, parts: seq<string>): seq<Option<Directive>> {
    seq(|parts|, i requires 0 <= i < |parts| => ParseItem(urlOk, parts[i]))
  }

  function ParseParts(urlOk: string -> bool, parts: seq<string>): seq<Directive> { Present(Items(urlOk, parts)) }

  function Parse(urlOk: string -> bool, text: string): seq<Directive> {
    var ds := ParseParts(urlOk, Split(TrimSpace(text)));
    if ds == [] then [DIRECT] else ds
  }

  lemma ItemsStep(urlOk: string -> bool, parts: seq<string>, i: nat)
    requires i < |parts|
    ensures var d := ParseItem(urlOk, parts[i]);
            ParseParts(urlOk, parts[..i + 1]) == ParseParts(urlOk, parts[..i]) + if d.Some? then [d.value] else []
  {
    var items := Items(urlOk, parts[..i + 1]);
    assert items[..i] == Items(urlOk, parts[..i]) && items[i] == ParseItem(urlOk, parts[i]);
  }

  /** `ParsePACResult`. */
  method ParsePACResult(urlOk: string -> bool, result: string) returns (directives: seq<Directive>)
    ensures directives == Parse(urlOk, result) && directives != []
  {
    var text := TrimSpace(result);
    if text == "" {
      ghost var items := Items(urlOk, [""]);
      assert Split(text) == [""] && items == [None] && Present(items[..0]) == [];
      return [DIRECT];
    }
    var parts := Split(text);
    directives := [];
    for i := 0 to |parts|
      invariant directives == ParseParts(urlOk, parts[..i])
    {
      var d := ParseItem(urlOk, parts[i]);
      ItemsStep(urlOk, parts, i);
      if d.Some? {
        directives := directives + [d.value];
      }
    }
    assert parts[..|parts|] == parts;
    if directives == [] {
      return [DIRECT];
    }
  }

  // ---- Round trip ----

  /** No space and no separator inside. */
  predicate Plain(s: string) { s != "" && forall i | 0 <= i < |s| :: !IsSpace(s[i]) && s[i] != ';' }

  /** A directive that survives printing: plain DIRECT, or an upper-case kind with a plain, parsable address. */
  predicate WellFormed(urlOk: string -> bool, d: Directive) {
    d == DIRECT ||
    (Plain(d.kind) && ToUpper(d.kind) == d.kind && d.kind != "DIRECT" && Plain(d.hostPort)
     && urlOk(UrlText(d.kind, d.hostPort)) && d.proxyURL == Some(UrlText(d.kind, d.hostPort)))
  }

  lemma {:induction false} WordOf(w: string, rest: string)
    requires forall i | 0 <= i < |w| :: !IsSpace(w[i])
    requires rest == [] || IsSpace(rest[0])
    ensures Word(w + rest) == w
  {
    if w != [] {
      assert (w + rest)[1..] == w[1..] + rest;
      WordOf(w[1..], rest);
    } else {
      assert w + rest == rest;
    }
  }

  lemma FieldsOfWord(w: string)
    requires Plain(w)
    ensures Fields(w) == [w]
  {
    WordOf(w, []);
    assert w + [] == w && w[|w|..] == [] && Fields([]) == [];
  }

  lemma FieldsOfTwo(v: string, w: string)
    requires Plain(v) && Plain(w)
    ensures Fields(v + " " + w) == [v, w]
  {
    var s := v + (" " + w);
    assert s == v + " " + w;
    WordOf(v, " " + w);
    assert s[|v|..] == " " + w && (" " + w)[1..] == w;
    FieldsOfWord(w);
    assert TrimLeft(" " + w) == w;
    WordOf(w, []);
    assert w + [] == w && w[|w|..] == [];
    assert Fields(" " + w) == [w];
  }

  lemma TrimOfTight(s: string)
    requires s != "" && !IsSpace(s[0]) && !IsSpace(s[|s| - 1])
    ensures TrimSpace(s) == s
  {
  }

  /** Starts and ends with something other than a space, and holds no separator. */
  predicate Tight(s: string) { s != "" && !IsSpace(s[0]) && !IsSpace(s[|s| - 1]) && ';' !in s }

  lemma DirectRoundTrip(urlOk: string -> bool)
    ensures ParseItem(urlOk, "DIRECT") == Some(DIRECT) && Tight("DIRECT")
  {
    TrimOfTight("DIRECT");
    FieldsOfWord("DIRECT");
    assert ToUpper("DIRECT") == "DIRECT";
  }

  lemma ProxyRoundTrip(urlOk: string -> bool, d: Directive)
    requires WellFormed(urlOk, d) && d != DIRECT
    ensures ParseItem(urlOk, Format(d)) == Some(d) && Tight(Format(d))
  {
    var s := d.kind + " " + d.hostPort;
    assert s[0] == d.kind[0] && s[|s| - 1] == d.hostPort[|d.hostPort| - 1];
    TrimOfTight(s);
    FieldsOfTwo(d.kind, d.hostPort);
  }

  lemma ItemRoundTrip(urlOk: string -> bool, d: Directive)
    requires WellFormed(urlOk, d)
    ensures ParseItem(urlOk, Format(d)) == Some(d) && Tight(Format(d))
  {
    if d == DIRECT {
      DirectRoundTrip(urlOk);
    } else {
      ProxyRoundTrip(urlOk, d);
    }
  }

  lemma {:induction false} SplitNoSeparator(s: string, t: string)
    requires ';' !in s
    ensures Split(s) == [s]
    ensures Split(s + ";" + t) == [s] + Split(t)
  {
    if s == [] {
      assert s + ";" + t == ";" + t && (";" + t)[1..] == t;
    } else {
      assert (s + ";" + t)[1..] == s[1..] + ";" + t;
      SplitNoSeparator(s[1..], t);
      assert [s[0]] + s[1..] == s;
    }
  }

  ghost predicate AllWellFormed(urlOk: string -> bool, ds: seq<Directive>) {
    forall i | 0 <= i < |ds| :: WellFormed(urlOk, ds[i])
  }

  lemma {:induction false} JoinIsTight(urlOk: string -> bool, ds: seq<Directive>)
    requires ds != [] && AllWellFormed(urlOk, ds)
    ensures var s := Join(ds); s != "" && !IsSpace(s[0]) && !IsSpace(s[|s| - 1])
  {
    ItemRoundTrip(urlOk, ds[0]);
    if |ds| > 1 {
      JoinIsTight(urlOk, ds[1..]);
    }
  }

  function Texts(ds: seq<Directive>): seq<string> {
    seq(|ds|, i requires 0 <= i < |ds| => Format(ds[i]))
  }

  lemma {:induction false} SplitUndoesJoin(ds: seq<Directive>)
    requires ds != [] && forall i | 0 <= i < |ds| :: ';' !in Format(ds[i])
    ensures Split(Join(ds)) == Texts(ds)
  {
    if |ds| == 1 {
      SplitNoSeparator(Format(ds[0]), "");
    } else {
      SplitUndoesJoin(ds[1..]);
      SplitNoSeparator(Format(ds[0]), Join(ds[1..]));
      assert Texts(ds) == [Format(ds[0])] + Texts(ds[1..]);
    }
  }

  lemma {:induction false} AllPresent(items: seq<Option<Directive>>, ds: seq<Directive>)
    requires |items| == |ds| && forall i | 0 <= i < |items| :: items[i] == Some(ds[i])
    ensures Present(items) == ds
  {
    if items != [] {
      AllPresent(items[..|items| - 1], ds[..|ds| - 1]);
    }
  }

  lemma JoinParses(urlOk: string -> bool, ds: seq<Directive>)
    requires ds != [] && AllWellFormed(urlOk, ds)
    ensures ParseParts(urlOk, Split(Join(ds))) == ds
  {
    forall i | 0 <= i < |ds| ensures ';' !in Format(ds[i]) && ParseItem(urlOk, Format(ds[i])) == Some(ds[i]) {
      ItemRoundTrip(urlOk, ds[i]);
    }
    SplitUndoesJoin(ds);
    AllPresent(Items(urlOk, Texts(ds)), ds);
  }

  // ---- What parsing can produce ----

  /** Every character of `w` occurs in `s`. */
  ghost predicate DrawnFrom(w: string, s: string) { forall c | c in w :: c in s }

  lemma {:induction false} TrimDrawn(s: string)
    ensures DrawnFrom(TrimLeft(s), s) && DrawnFrom(TrimRight(s), s)
    decreases |s|
  {
    if s != [] {
      TrimDrawn(s[1..]);
      TrimDrawn(s[..|s| - 1]);
    }
  }

  lemma {:induction false} WordHasNoSpace(s: string)
    ensures forall i | 0 <= i < |Word(s)| :: !IsSpace(Word(s)[i])
  {
    if s != [] && !IsSpace(s[0]) {
      WordHasNoSpace(s[1..]);
    }
  }

  lemma {:induction false} FieldsArePlain(s: string)
    requires ';' !in s
    ensures forall w | w in Fields(s) :: Plain(w)
    decreases |s|
  {
    TrimLeftShorter(s);
    TrimDrawn(s);
    var t := TrimLeft(s);
    if t != [] {
      WordHasNoSpace(t);
      var w := Word(t);
      assert forall i | 0 <= i < |w| :: w[i] == t[i] && t[i] in s;
      assert w != "" && Plain(w);
      FieldsArePlain(t[|w|..]);
    }
  }

  lemma {:induction false} SplitHasNoSeparator(s: string)
    ensures forall p | p in Split(s) :: ';' !in p
  {
    if s != [] {
      SplitHasNoSeparator(s[1..]);
    }
  }

  lemma UpperIsStable(w: string)
    requires Plain(w)
    ensures Plain(ToUpper(w)) && ToUpper(ToUpper(w)) == ToUpper(w)
  {
    var u := ToUpper(w);
    forall i | 0 <= i < |u| ensures !IsSpace(u[i]) && u[i] != ';' && UpperChar(u[i]) == u[i] {
      assert u[i] == UpperChar(w[i]);
    }
  }

  lemma ItemFieldsArePlain(part: string)
    requires ';' !in part
    ensures forall w | w in Fields(TrimSpace(part)) :: Plain(w)
  {
    TrimDrawn(part);
    TrimDrawn(TrimLeft(part));
    FieldsArePlain(TrimSpace(part));
  }

  lemma ItemIsWellFormed(urlOk: string -> bool, part: string)
    requires ';' !in part
    ensures ParseItem(urlOk, part).Some? ==> WellFormed(urlOk, ParseItem(urlOk, part).value)
  {
    ItemFieldsArePlain(part);
    var fields := Fields(TrimSpace(part));
    if |fields| > 1 {
      assert fields[0] in fields && fields[1] in fields;
      UpperIsStable(fields[0]);
    }
  }

  lemma {:induction false} PresentAreWellFormed(urlOk: string -> bool, items: seq<Option<Directive>>)
    requires forall i | 0 <= i < |items| :: items[i].Some? ==> WellFormed(urlOk, items[i].value)
    ensures AllWellFormed(urlOk, Present(items))
  {
    if items != [] {
      PresentAreWellFormed(urlOk, items[..|items| - 1]);
    }
  }

  lemma PartsAreWellFormed(urlOk: string -> bool, parts: seq<string>)
    requires forall p | p in parts :: ';' !in p
    ensures AllWellFormed(urlOk, ParseParts(urlOk, parts))
  {
    forall i | 0 <= i < |parts|
      ensures Items(urlOk, parts)[i].Some? ==> WellFormed(urlOk, Items(urlOk, parts)[i].value)
    {
      ItemIsWellFormed(urlOk, parts[i]);
    }
    PresentAreWellFormed(urlOk, Items(urlOk, parts));
  }

  /** Whatever the text, parsing gives a non-empty list of well-formed directives. */
  lemma ParseIsTotal(urlOk: string -> bool, text: string)
    ensures Parse(urlOk, text) != []
    ensures AllWellFormed(urlOk, Parse(urlOk, text))
  {
    SplitHasNoSeparator(TrimSpace(text));
    PartsAreWellFormed(urlOk, Split(TrimSpace(text)));
  }

  /** Parsing inverts printing exactly for the non-empty lists of well-formed directives. */
  lemma RoundTripExactlyWhenWellFormed(urlOk: string -> bool, ds: seq<Directive>)
    ensures Parse(urlOk, Join(ds)) == ds <==> ds != [] && AllWellFormed(urlOk, ds)
  {
    ParseIsTotal(urlOk, Join(ds));
    if ds != [] && AllWellFormed(urlOk, ds) {
      JoinParses(urlOk, ds);
      JoinIsTight(urlOk, ds);
      TrimOfTight(Join(ds));
    }
  }

  /** Printing what was parsed and parsing it again changes nothing. */
  lemma NormalFormIsStable(urlOk: string -> bool, text: string)
    ensures Parse(urlOk, Join(Parse(urlOk, text))) == Parse(urlOk, text)
  {
    ParseIsTotal(urlOk, text);
    RoundTripExactlyWhenWellFormed(urlOk, Parse(urlOk, text));
  }

  // ---- What one part means, however it is spaced ----

  predicate Blank(s: string) { forall i | 0 <= i < |s| :: IsSpace(s[i]) }

  lemma {:induction false} TrimLeftBlank(a: string, s: string)
    requires Blank(a)
    ensures TrimLeft(a + s) == TrimLeft(s)
  {
    if a == [] {
      assert a + s == s;
    } else {
      assert (a + s)[1..] == a[1..] + s;
      TrimLeftBlank(a[1..], s);
    }
  }

  lemma FieldsSkipBlank(a: string, s: string)
    requires Blank(a)
    ensures Fields(a + s) == Fields(s)
  {
    TrimLeftBlank(a, s);
  }

  lemma FieldsOfWordThen(w: string, rest: string)
    requires Plain(w) && (rest == [] || IsSpace(rest[0]))
    ensures Fields(w + rest) == [w] + Fields(rest)
  {
    WordOf(w, rest);
    assert (w + rest)[|w|..] == rest && (w + rest)[0] == w[0];
  }

  lemma FieldsOfBlank(a: string)
    requires Blank(a)
    ensures Fields(a) == []
  {
    FieldsSkipBlank(a, []);
    assert a + [] == a;
  }

  lemma {:induction false} FieldsOfTrimmedLeft(s: string)
    ensures Fields(TrimLeft(s)) == Fields(s)
  {
    if s != [] && IsSpace(s[0]) {
      FieldsOfTrimmedLeft(s[1..]);
      FieldsSkipBlank([s[0]], s[1..]);
      assert [s[0]] + s[1..] == s;
    }
  }

  lemma {:induction false} FieldsIgnoreTrailing(s: string, c: char)
    requires IsSpace(c)
    ensures Fields(s + [c]) == Fields(s)
    decreases |s|
  {
    if s == [] {
      FieldsOfBlank([c]);
      FieldsOfBlank([]);
      assert s + [c] == [c];
    } else if IsSpace(s[0]) {
      FieldsIgnoreTrailing(s[1..], c);
      FieldsSkipBlank([s[0]], s[1..] + [c]);
      FieldsSkipBlank([s[0]], s[1..]);
      assert [s[0]] + (s[1..] + [c]) == s + [c] && [s[0]] + s[1..] == s;
    } else {
      var w := Word(s);
      var rest := s[|w|..];
      WordEnds(s);
      assert w != [] && s == w + rest;
      WordOf(w, rest + [c]);
      assert s + [c] == w + (rest + [c]) && (s + [c])[|w|..] == rest + [c] && (s + [c])[0] == s[0];
      FieldsIgnoreTrailing(rest, c);
      assert Fields(s) == [w] + Fields(rest) && Fields(s + [c]) == [w] + Fields(rest + [c]);
    }
  }

  lemma {:induction false} WordEnds(s: string)
    ensures var w := Word(s); (forall i | 0 <= i < |w| :: !IsSpace(w[i])) && (|w| < |s| ==> IsSpace(s[|w|]))
    ensures s != [] && !IsSpace(s[0]) ==> Word(s) != []
  {
    if s != [] && !IsSpace(s[0]) {
      WordEnds(s[1..]);
    }
  }

  lemma {:induction false} FieldsOfTrimmedRight(s: string)
    ensures Fields(TrimRight(s)) == Fields(s)
  {
    if s != [] && IsSpace(s[|s| - 1]) {
      var n := |s| - 1;
      FieldsOfTrimmedRight(s[..n]);
      FieldsIgnoreTrailing(s[..n], s[n]);
      assert s[..n] + [s[n]] == s;
    }
  }

  /** An upper-case word is the upper case of another exactly when they are equal letter by letter. */
  lemma UpperEquals(v: string, word: string)
    requires forall i | 0 <= i < |word| :: !('a' <= word[i] <= 'z')
    ensures ToUpper(v) == word <==> EqualFold(v, word)
  {
    if |v| == |word| {
      forall i | 0 <= i < |v| ensures ToUpper(v)[i] == word[i] <==> SameLetter(v[i], word[i]) {
        assert ToUpper(v)[i] == UpperChar(v[i]);
      }
      if EqualFold(v, word) {
        assert forall i | 0 <= i < |v| :: ToUpper(v)[i] == word[i];
      }
    }
  }

  /** The URL that a proxy word and an address stand for; the word in whatever case. */
  function ProxyUrl(word: string, hostPort: string): string {
    (if EqualFold(word, "HTTPS") then "https"
     else if EqualFold(word, "SOCKS") || EqualFold(word, "SOCKS4") then "socks4"
     else if EqualFold(word, "SOCKS5") then "socks5"
     else "http") + "://" + hostPort
  }

  lemma UrlTextMeaning(word: string, hostPort: string)
    ensures UrlText(ToUpper(word), hostPort) == ProxyUrl(word, hostPort)
  {
    UpperEquals(word, "HTTPS");
    UpperEquals(word, "SOCKS");
    UpperEquals(word, "SOCKS4");
    UpperEquals(word, "SOCKS5");
  }

  /**
   A part of two words and whatever follows them, with any spaces around: DIRECT if the first word is that, in whatever
   case; else, if its URL parses, the directive with the first word in upper case, the second as the address, and that
   URL.
   */
  lemma PartOfTwoWords(urlOk: string -> bool, a: string, v: string, b: string, w: string, rest: string)
    requires Blank(a) && Plain(v) && Blank(b) && b != [] && Plain(w) && (rest == [] || IsSpace(rest[0]))
    ensures ParseItem(urlOk, a + (v + (b + (w + rest)))) ==
            if EqualFold(v, "DIRECT") then Some(DIRECT)
            else if urlOk(ProxyUrl(v, w)) then Some(Directive(ToUpper(v), w, Some(ProxyUrl(v, w))))
            else None
    ensures EqualFold(ToUpper(v), v)
    ensures var u := ToUpper(v); forall i | 0 <= i < |u| :: !('a' <= u[i] <= 'z')
  {
    TwoWordFields(a, v, b, w, rest);
    ItemOfFields(urlOk, a + (v + (b + (w + rest))), v, w);
    UpperLetters(v);
  }

  lemma TwoWordFields(a: string, v: string, b: string, w: string, rest: string)
    requires Blank(a) && Plain(v) && Blank(b) && b != [] && Plain(w) && (rest == [] || IsSpace(rest[0]))
    ensures Fields(TrimSpace(a + (v + (b + (w + rest))))) == [v] + ([w] + Fields(rest))
  {
    PartFields(a + (v + (b + (w + rest))));
    FieldsSkipBlank(a, v + (b + (w + rest)));
    FieldsOfWordThen(v, b + (w + rest));
    FieldsSkipBlank(b, w + rest);
    FieldsOfWordThen(w, rest);
  }

  lemma ItemOfFields(urlOk: string -> bool, part: string, v: string, w: string)
    requires var fields := Fields(TrimSpace(part)); |fields| > 1 && fields[0] == v && fields[1] == w
    ensures ParseItem(urlOk, part) ==
            if EqualFold(v, "DIRECT") then Some(DIRECT)
            else if urlOk(ProxyUrl(v, w)) then Some(Directive(ToUpper(v), w, Some(ProxyUrl(v, w))))
            else None
  {
    UpperEquals(v, "DIRECT");
    UrlTextMeaning(v, w);
  }

  lemma UpperLetters(v: string)
    ensures EqualFold(ToUpper(v), v)
    ensures var u := ToUpper(v); forall i | 0 <= i < |u| :: !('a' <= u[i] <= 'z')
  {
    var u := ToUpper(v);
    forall i | 0 <= i < |v| ensures SameLetter(u[i], v[i]) && !('a' <= u[i] <= 'z') { UpperCharMeaning(v[i]); }
  }

  lemma UpperCharMeaning(c: char)
    ensures SameLetter(UpperChar(c), c) && !('a' <= UpperChar(c) <= 'z')
  {
  }

  /** A part of one word is DIRECT, and a blank part is nothing. */
  lemma PartOfOneWord(urlOk: string -> bool, a: string, v: string, b: string)
    requires Blank(a) && Plain(v) && Blank(b)
    ensures ParseItem(urlOk, a + (v + b)) == Some(DIRECT) && ParseItem(urlOk, a) == None
  {
    PartFields(a + (v + b));
    PartFields(a);
    FieldsSkipBlank(a, v + b);
    FieldsOfWordThen(v, b);
    FieldsOfBlank(b);
    FieldsOfBlank(a);
  }

  lemma PartFields(s: string)
    ensures Fields(TrimSpace(s)) == Fields(s)
  {
    FieldsOfTrimmedLeft(s);
    FieldsOfTrimmedRight(TrimLeft(s));
  }

  /** Splitting at semicolons and joining again gives the text back, and no part holds one. */
  lemma {:induction false} SplitJoins(s: string)
    ensures Glue(Split(s)) == s && forall p | p in Split(s) :: ';' !in p
  {
    SplitHasNoSeparator(s);
    if s != [] {
      SplitJoins(s[1..]);
      if s[0] == ';' {
        GlueEmpty(Split(s[1..]));
      } else {
        GlueCons(s[0], Split(s[1..]));
      }
      assert s == [s[0]] + s[1..];
    }
  }

  lemma GlueEmpty(parts: seq<string>)
    requires parts != []
    ensures Glue([[]] + parts) == ";" + Glue(parts)
  {
    assert ([[]] + parts)[1..] == parts;
  }

  lemma GlueCons(c: char, parts: seq<string>)
    requires parts != []
    ensures Glue([[c] + parts[0]] + parts[1..]) == [c] + Glue(parts)
  {
    var longer := [[c] + parts[0]] + parts[1..];
    assert longer[0] == [c] + parts[0] && longer[1..] == parts[1..];
  }

  function Glue(parts: seq<string>): string {
    if parts == [] then "" else if |parts| == 1 then parts[0] else parts[0] + ";" + Glue(parts[1..])
  }
}
