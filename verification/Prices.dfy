/** Legacy price texts mapped to the grammar of the target column: Free, Negotiable or
    $N for a whole N from 1 to 1000. Amounts are exact reals. */
module Prices {
  import opened Prelude

  const PRICE_MIN := 1
  const PRICE_MAX := 1000
  const FREE := "Free"
  const NEGOTIABLE := "Negotiable"

  // ---- Characters ---------------------------------------------------------------------

  predicate IsDigit(c: char) {
    '0' <= c <= '9'
  }

  /** ECMAScript white space and line terminators. */
  predicate IsSpace(c: char) {
    || c in " \t\n\r\U{000B}\U{000C}\U{00A0}\U{1680}\U{2028}\U{2029}\U{202F}\U{205F}\U{3000}\U{FEFF}"
    || '\U{2000}' <= c <= '\U{200A}'
  }

  /** Case folding for the letters the patterns use: Latin, Cyrillic, and the old
      Cyrillic letter forms that upper-case to В Д О С Т. */
  function Fold(c: char): char {
    if 'a' <= c <= 'z' || '\U{0430}' <= c <= '\U{044F}' then (c as int - 32) as char
    else if c == '\U{1C80}' then '\U{0412}'
    else if c == '\U{1C81}' then '\U{0414}'
    else if c == '\U{1C82}' then '\U{041E}'
    else if c == '\U{1C83}' then '\U{0421}'
    else if c == '\U{1C84}' || c == '\U{1C85}' then '\U{0422}'
    else c
  }

  predicate SameFolded(s: string, t: string) {
    |s| == |t| && forall i :: 0 <= i < |s| ==> Fold(s[i]) == Fold(t[i])
  }

  predicate MentionedAt(s: string, word: string, i: nat) {
    i + |word| <= |s| && SameFolded(s[i..i + |word|], word)
  }

  /** /word/i anywhere. */
  predicate Mentions(s: string, word: string) {
    exists i: nat :: i <= |s| && MentionedAt(s, word, i)
  }

  predicate IsRouble(c: char) {
    c == '\U{0440}' || c == '\U{0420}' || c == '\U{20BD}'
  }

  function TrimLeft(s: string): string {
    if s != "" && IsSpace(s[0]) then TrimLeft(s[1..]) else s
  }

  function TrimRight(s: string): string {
    if s != "" && IsSpace(s[|s| - 1]) then TrimRight(s[..|s| - 1]) else s
  }

  function Trim(s: string): string {
    TrimRight(TrimLeft(s))
  }

  /** All white space removed. */
  function Squeeze(s: string): string {
    if s == "" then "" else (if IsSpace(s[0]) then "" else [s[0]]) + Squeeze(s[1..])
  }

  // ---- Number tokens --------------------------------------------------------------------

  predicate AllDigits(s: string) {
    forall i :: 0 <= i < |s| ==> IsDigit(s[i])
  }

  /** ^\d{1,3}(,\d{3})+$ */
  predicate Grouped(s: string) {
    |s| >= 5 && s[|s| - 4] == ',' && AllDigits(s[|s| - 3..])
    && var head := s[..|s| - 4]; (1 <= |head| <= 3 && AllDigits(head)) || Grouped(head)
  }

  /** ^\d+\.0+$ */
  predicate Whole(s: string) {
    exists i :: 0 < i < |s| - 1 && s[i] == '.' && AllDigits(s[..i]) && forall j :: i < j < |s| ==> s[j] == '0'
  }

  /** The number its digits denote, separators skipped. */
  function Value(s: string): nat {
    if s == "" then 0
    else
      var c := s[|s| - 1];
      if IsDigit(c) then 10 * Value(s[..|s| - 1]) + (c as int - '0' as int) else Value(s[..|s| - 1])
  }

  function BeforePoint(s: string): string {
    if s == "" || s[0] == '.' then "" else [s[0]] + BeforePoint(s[1..])
  }

  predicate InRun(c: char, point: bool) {
    IsDigit(c) || c == ',' || (point && c == '.')
  }

  /** The longest prefix of digits and commas (and points). */
  function Run(s: string, point: bool): string {
    if s != "" && InRun(s[0], point) then [s[0]] + Run(s[1..], point) else ""
  }

  /** The whole number a token safely denotes. */
  function Amount(token: string): Option<nat> {
    if AllDigits(token) || Grouped(token) then Some(Value(token))
    else if Whole(token) then Some(Value(BeforePoint(token)))
    else None
  }

  function Digit(n: nat): char
    requires n < 10
  {
    (n + '0' as int) as char
  }

  function Decimal(n: nat): (s: string)
    ensures s != "" && AllDigits(s) && Value(s) == n
  {
    if n < 10 then [Digit(n)]
    else
      assert (Decimal(n / 10) + [Digit(n % 10)])[..|Decimal(n / 10)|] == Decimal(n / 10);
      Decimal(n / 10) + [Digit(n % 10)]
  }

  // ---- The mapping ------------------------------------------------------------------------

  /** Run notes carry only what was computed and the raw value's length. */
  datatype Note =
    | EmptyPrice
    | OutOfRange(usd: int, length: nat)
    | FromRoubles(roubles: nat, usd: int, rate: real, length: nat)
    | LeadingAmount(usd: int, length: nat)
    | UnsafeNumber(length: nat)
    | Unparsed(length: nat)

  /** Math.round: ties go up. */
  function Round(x: real): int {
    (x + 0.5).Floor
  }

  function Dollars(roubles: nat, rate: real): int
    requires rate > 0.0
  {
    var nearest := Round(roubles as real / rate / 5.0) * 5;
    if nearest > 5 then nearest else 5
  }

  function Canonical(usd: int, length: nat, note: Option<Note>): (string, seq<Note>) {
    if usd < PRICE_MIN || usd > PRICE_MAX then (NEGOTIABLE, [OutOfRange(usd, length)])
    else ("$" + Decimal(usd), if note.Some? then [note.value] else [])
  }

  /** The rouble amount at the head of a squeezed text:
      ^(\d{1,3}(?:,\d{3})+|\d+)(?:руб|р|₽) */
  function Roubles(s: string): Option<nat> {
    var run := Run(s, false);
    if run != "" && (AllDigits(run) || Grouped(run)) && |run| < |s| && IsRouble(s[|run|])
    then Some(Value(run)) else None
  }

  /** The token of ^\$?\s*([\d.,]+), empty if there is none. */
  function Token(raw: string): string {
    Run(TrimLeft(if raw != "" && raw[0] == '$' then raw[1..] else raw), true)
  }

  function MapPrice(price: string, rate: real): (string, seq<Note>)
    requires rate > 0.0
  {
    var raw := Trim(price);
    if raw == "" then (FREE, [EmptyPrice])
    else if Mentions(raw, "бесплатно") || SameFolded(raw, "free") then (FREE, [])
    else if Mentions(raw, "договор") || Mentions(raw, "negotiable") then (NEGOTIABLE, [])
    else
      var roubles := Roubles(Squeeze(raw));
      if roubles.Some? then
        var usd := Dollars(roubles.value, rate);
        Canonical(usd, |raw|, Some(FromRoubles(roubles.value, usd, rate, |raw|)))
      else
        var token := Token(raw);
        if token == "" then (NEGOTIABLE, [Unparsed(|raw|)])
        else if Amount(token).None? then (NEGOTIABLE, [UnsafeNumber(|raw|)])
        else
          var usd := Amount(token).value;
          Canonical(usd, |raw|, if raw == "$" + Decimal(usd) then None else Some(LeadingAmount(usd, |raw|)))
  }

  predicate IsCanonical(s: string) {
    s == "Free" || s == "Negotiable" || exists n :: 1 <= n <= 1000 && s == "$" + Decimal(n)
  }

  /** Whatever the text, the column's check accepts the result. */
  lemma ResultIsCanonical(price: string, rate: real)
    requires rate > 0.0
    ensures IsCanonical(MapPrice(price, rate).0)
  {
  }

  // ---- What the head of a text is ------------------------------------------------------

  /** The run is the longest prefix made of its characters. */
  lemma {:induction false} RunIsLongest(s: string, point: bool, k: nat)
    requires k <= |s| && (forall i :: 0 <= i < k ==> InRun(s[i], point)) && (k < |s| ==> !InRun(s[k], point))
    ensures Run(s, point) == s[..k]
  {
    if k > 0 {
      RunIsLongest(s[1..], point, k - 1);
      assert s[..k] == [s[0]] + s[1..][..k - 1];
    }
  }

  lemma {:induction false} RunExists(s: string, point: bool) returns (k: nat)
    ensures k <= |s| && (forall i :: 0 <= i < k ==> InRun(s[i], point)) && (k < |s| ==> !InRun(s[k], point))
    ensures Run(s, point) == s[..k]
  {
    if s == "" || !InRun(s[0], point) {
      k := 0;
    } else {
      var n := RunExists(s[1..], point);
      k := n + 1;
      assert s == [s[0]] + s[1..];
      assert forall i :: 0 <= i < k ==> InRun(s[i], point) by {
        forall i | 0 <= i < k ensures InRun(s[i], point) { if i > 0 { assert s[i] == s[1..][i - 1]; } }
      }
      RunIsLongest(s, point, k);
    }
  }

  lemma {:induction false} GroupedInRun(s: string)
    requires Grouped(s)
    ensures forall i :: 0 <= i < |s| ==> InRun(s[i], false)
  {
    var head, tail := s[..|s| - 4], s[|s| - 3..];
    if !(1 <= |head| <= 3 && AllDigits(head)) { GroupedInRun(head); }
    forall i | 0 <= i < |s| ensures InRun(s[i], false) {
      if i < |s| - 4 { assert s[i] == head[i]; } else if i > |s| - 4 { assert s[i] == tail[i - (|s| - 3)]; }
    }
  }

  /** The rouble pattern matches with amount v exactly when the text splits into a
      plain or grouped number denoting v and a rouble sign. */
  lemma RoublesIsTheMatch(s: string, v: nat)
    ensures Roubles(s) == Some(v) <==>
              exists k: nat :: 0 < k < |s| && (AllDigits(s[..k]) || Grouped(s[..k]))
                               && IsRouble(s[k]) && Value(s[..k]) == v
  {
    var n := RunExists(s, false);
    forall k: nat | 0 < k < |s| && (AllDigits(s[..k]) || Grouped(s[..k])) && IsRouble(s[k]) ensures k == n {
      if Grouped(s[..k]) { GroupedInRun(s[..k]); }
      forall i | 0 <= i < k ensures InRun(s[i], false) { assert s[i] == s[..k][i]; }
      RunIsLongest(s, false, k);
      assert |s[..k]| == |s[..n]|;
    }
    if Roubles(s).Some? { assert 0 < n < |s| && IsRouble(s[n]); }
  }

  // ---- Roubles ----------------------------------------------------------------------------

  lemma RoundIsNearest(x: real)
    ensures Round(x) as real - 0.5 <= x <= Round(x) as real + 0.5
  {
  }

  /** Multiples of five, at least five, and within $2.50 of the exact conversion once
      that is worth $2.50. */
  lemma DollarsAreNear(roubles: nat, rate: real)
    requires rate > 0.0
    ensures Dollars(roubles, rate) % 5 == 0 && Dollars(roubles, rate) >= 5
    ensures var exact := roubles as real / rate;
            exact >= 2.5 ==> exact - 2.5 <= Dollars(roubles, rate) as real <= exact + 2.5
  {
    var exact := roubles as real / rate;
    RoundIsNearest(exact / 5.0);
    assert exact / 5.0 * 5.0 == exact;
  }

  lemma QuotientGrows(a: real, b: real, rate: real)
    requires rate > 0.0 && a <= b
    ensures a / rate <= b / rate
  {
    assert (b - a) / rate >= 0.0;
    assert b / rate == a / rate + (b - a) / rate;
  }

  lemma DollarsGrow(a: nat, b: nat, rate: real)
    requires rate > 0.0 && a <= b
    ensures Dollars(a, rate) <= Dollars(b, rate)
  {
    QuotientGrows(a as real, b as real, rate);
    assert a as real / rate / 5.0 <= b as real / rate / 5.0;
  }

  /** A text with an amount in roubles that nothing earlier decides. */
  predicate InRoubles(price: string, roubles: nat) {
    var raw := Trim(price);
    && raw != "" && !Mentions(raw, "бесплатно") && !SameFolded(raw, "free")
    && !Mentions(raw, "договор") && !Mentions(raw, "negotiable")
    && Roubles(Squeeze(raw)) == Some(roubles)
  }

  /** The rouble branch: the converted price, or left to the mentor when out of range;
      never clamped. */
  lemma RoublePrice(a: string, x: nat, rate: real)
    requires rate > 0.0 && InRoubles(a, x)
    ensures MapPrice(a, rate).0 == if Dollars(x, rate) <= PRICE_MAX then "$" + Decimal(Dollars(x, rate)) else NEGOTIABLE
    ensures MapPrice(a, rate).0 == NEGOTIABLE <==> Dollars(x, rate) > PRICE_MAX
  {
    DollarsAreNear(x, rate);
    assert ("$" + Decimal(Dollars(x, rate)))[0] == '$';
  }

  /** Of two rouble texts the one with the larger amount never gets the lower price. */
  lemma RoublePricesGrow(a: string, b: string, x: nat, y: nat, rate: real)
    requires rate > 0.0 && InRoubles(a, x) && InRoubles(b, y) && x <= y
    ensures MapPrice(a, rate).0 == NEGOTIABLE ==> MapPrice(b, rate).0 == NEGOTIABLE
    ensures MapPrice(b, rate).0 != NEGOTIABLE ==>
              exists n: nat, k: nat ::
                MapPrice(a, rate).0 == "$" + Decimal(n) && MapPrice(b, rate).0 == "$" + Decimal(k) && n <= k
  {
    DollarsGrow(x, y, rate);
    RoublePrice(a, x, rate);
    RoublePrice(b, y, rate);
    if Dollars(y, rate) <= PRICE_MAX {
      var n: nat, k: nat := Dollars(x, rate), Dollars(y, rate);
      assert MapPrice(a, rate).0 == "$" + Decimal(n) && MapPrice(b, rate).0 == "$" + Decimal(k);
    }
  }

  // ---- Texts without letters -----------------------------------------------------------------

  /** Characters no keyword contains. */
  predicate Plain(c: char) {
    InRun(c, true) || c == '$' || IsSpace(c)
  }

  predicate Letter(c: char) {
    'A' <= c <= 'Z' || 'a' <= c <= 'z' || '\U{0410}' <= c <= '\U{044F}'
  }

  predicate Lettered(word: string) {
    word != "" && forall i :: 0 <= i < |word| ==> Letter(word[i])
  }

  lemma LetterIsNotPlain(c: char, p: char)
    requires Letter(c) && Plain(p)
    ensures Fold(p) != Fold(c)
  {
    assert Fold(p) == p;
  }

  lemma MentionsAfterPlain(head: string, tail: string, word: string)
    requires Lettered(word) && forall i :: 0 <= i < |head| ==> Plain(head[i])
    ensures Mentions(head + tail, word) <==> Mentions(tail, word)
  {
    var s := head + tail;
    if Mentions(s, word) {
      var i: nat :| i <= |s| && MentionedAt(s, word, i);
      assert s[i..i + |word|][0] == s[i];
      if i < |head| { LetterIsNotPlain(word[0], s[i]); }
      assert s[i..i + |word|] == tail[i - |head|..i - |head| + |word|];
      assert MentionedAt(tail, word, i - |head|);
    }
    if Mentions(tail, word) {
      var i: nat :| i <= |tail| && MentionedAt(tail, word, i);
      assert s[i + |head|..i + |head| + |word|] == tail[i..i + |word|];
      assert MentionedAt(s, word, i + |head|);
    }
  }

  /** A text of plain characters before `tail` is neither free nor negotiable unless the
      tail says so. */
  lemma KeywordsInTail(head: string, tail: string)
    requires head != "" && forall i :: 0 <= i < |head| ==> Plain(head[i])
    ensures Mentions(head + tail, "бесплатно") <==> Mentions(tail, "бесплатно")
    ensures Mentions(head + tail, "договор") <==> Mentions(tail, "договор")
    ensures Mentions(head + tail, "negotiable") <==> Mentions(tail, "negotiable")
    ensures !SameFolded(head + tail, "free")
  {
    assert Lettered("бесплатно") && Lettered("договор") && Lettered("negotiable");
    MentionsAfterPlain(head, tail, "бесплатно");
    MentionsAfterPlain(head, tail, "договор");
    MentionsAfterPlain(head, tail, "negotiable");
    LetterIsNotPlain("free"[0], head[0]);
  }

  lemma NothingMentioned()
    ensures !Mentions("", "бесплатно") && !Mentions("", "договор") && !Mentions("", "negotiable")
  {
  }

  // ---- White space -------------------------------------------------------------------------

  predicate Blank(s: string) {
    forall i :: 0 <= i < |s| ==> IsSpace(s[i])
  }

  predicate Tight(s: string) {
    forall i :: 0 <= i < |s| ==> !IsSpace(s[i])
  }

  lemma {:induction false} TrimLeftSkips(blank: string, s: string)
    requires Blank(blank) && (s != "" ==> !IsSpace(s[0]))
    ensures TrimLeft(blank + s) == s
  {
    if blank == "" {
      assert blank + s == s;
    } else {
      assert (blank + s)[1..] == blank[1..] + s;
      TrimLeftSkips(blank[1..], s);
    }
  }

  lemma {:induction false} TrimRightStops(s: string, tail: string)
    requires s != "" && !IsSpace(s[|s| - 1])
    ensures TrimRight(s + tail) == s + TrimRight(tail)
  {
    if tail == "" {
      assert s + tail == s;
      assert TrimRight(tail) == tail;
    } else if IsSpace(tail[|tail| - 1]) {
      assert (s + tail)[..|s + tail| - 1] == s + tail[..|tail| - 1];
      TrimRightStops(s, tail[..|tail| - 1]);
    }
  }

  lemma {:induction false} SqueezeConcat(s: string, t: string)
    ensures Squeeze(s + t) == Squeeze(s) + Squeeze(t)
  {
    if s == "" {
      assert s + t == t;
    } else {
      assert (s + t)[1..] == s[1..] + t;
      SqueezeConcat(s[1..], t);
    }
  }

  lemma {:induction false} SqueezeKeeps(s: string)
    ensures Tight(s) ==> Squeeze(s) == s
    ensures Blank(s) ==> Squeeze(s) == ""
  {
    if s != "" { SqueezeKeeps(s[1..]); }
  }

  lemma {:induction false} SqueezeTrimRight(s: string)
    ensures Squeeze(TrimRight(s)) == Squeeze(s)
    ensures TrimRight(s) <= s
  {
    if s != "" && IsSpace(s[|s| - 1]) {
      var init := s[..|s| - 1];
      assert s == init + [s[|s| - 1]];
      SqueezeTrimRight(init);
      SqueezeConcat(init, [s[|s| - 1]]);
    }
  }

  // ---- An amount at the head -----------------------------------------------------------------

  /** White space, perhaps a dollar sign and more white space, a number token, and
      whatever follows. */
  predicate Heads(lead: string, sign: string, token: string) {
    && Blank(lead) && token != "" && (forall i :: 0 <= i < |token| ==> InRun(token[i], true))
    && (sign == "" || (sign[0] == '$' && Blank(sign[1..])))
  }

  /** The text goes on so that neither pattern reads beyond the token. */
  predicate Ends(rest: string) {
    && (rest == "" || !InRun(rest[0], true))
    && (Squeeze(rest) == "" || !InRun(Squeeze(rest)[0], false))
  }

  lemma HeadTrims(lead: string, sign: string, token: string, rest: string)
    requires Heads(lead, sign, token)
    ensures Trim(lead + sign + token + rest) == sign + token + TrimRight(rest)
  {
    var body := sign + token + rest;
    assert lead + sign + token + rest == lead + body;
    TrimLeftSkips(lead, body);
    assert (sign + token)[|sign + token| - 1] == token[|token| - 1];
    TrimRightStops(sign + token, rest);
  }

  lemma HeadToken(sign: string, token: string, tail: string)
    requires Heads("", sign, token) && (tail == "" || !InRun(tail[0], true))
    ensures Token(sign + token + tail) == token
  {
    var raw := sign + token + tail;
    if sign == "" {
      assert raw == token + tail;
      TrimLeftSkips("", token + tail);
    } else {
      assert raw[1..] == sign[1..] + (token + tail);
      TrimLeftSkips(sign[1..], token + tail);
    }
    RunIsLongest(token + tail, true, |token|);
  }

  lemma HeadIsPlain(sign: string, token: string)
    requires Heads("", sign, token)
    ensures forall i :: 0 <= i < |sign + token| ==> Plain((sign + token)[i])
  {
    forall i | 0 <= i < |sign + token| ensures Plain((sign + token)[i]) {
      if 0 < i < |sign| { assert (sign + token)[i] == sign[1..][i - 1]; }
    }
  }

  function Sign(sign: string): string {
    if sign == "" then "" else "$"
  }

  lemma SignSqueezes(sign: string)
    requires sign == "" || (sign[0] == '$' && Blank(sign[1..]))
    ensures Squeeze(sign) == Sign(sign)
  {
    if sign != "" { SqueezeKeeps(sign[1..]); }
  }

  lemma HeadSqueezes(sign: string, token: string, tail: string)
    requires Heads("", sign, token)
    ensures Squeeze(sign + token + tail) == Sign(sign) + token + Squeeze(tail)
  {
    SignSqueezes(sign);
    assert Squeeze(token) == token by {
      assert Tight(token);
      SqueezeKeeps(token);
    }
    assert Squeeze(sign + token) == Sign(sign) + token by { SqueezeConcat(sign, token); }
    SqueezeConcat(sign + token, tail);
  }

  lemma DollarsAreNoRoubles(s: string)
    requires s != "" && s[0] == '$'
    ensures Roubles(s) == None
  {
    assert Run(s, false) == "";
  }

  lemma UnsignedSqueezes(token: string, tail: string)
    requires Heads("", "", token)
    ensures Squeeze("" + token + tail) == token + Squeeze(tail)
  {
    assert "" + token + tail == token + tail;
    assert Squeeze(token) == token by {
      assert Tight(token);
      SqueezeKeeps(token);
    }
    SqueezeConcat(token, tail);
  }

  lemma SignedHasNoRoubles(sign: string, token: string, tail: string)
    requires Heads("", sign, token) && sign != ""
    ensures Roubles(Squeeze(sign + token + tail)) == None
  {
    HeadSqueezes(sign, token, tail);
    DollarsAreNoRoubles("$" + token + Squeeze(tail));
  }

  /** A number is read as roubles exactly when a rouble sign follows it. */
  lemma NumberRoubles(number: string, tail: string)
    requires number != "" && (AllDigits(number) || Grouped(number)) && (tail == "" || !InRun(tail[0], false))
    ensures Roubles(number + tail) == if tail != "" && IsRouble(tail[0]) then Some(Value(number)) else None
  {
    var s := number + tail;
    if Grouped(number) { GroupedInRun(number); }
    RunIsLongest(s, false, |number|);
    assert s[..|number|] == number;
  }

  /** Whether such a text is in roubles depends on what follows the token. */
  lemma HeadRoubles(sign: string, token: string, tail: string)
    requires Heads("", sign, token) && Ends(tail) && (AllDigits(token) || Grouped(token))
    ensures Roubles(Squeeze(sign + token + tail))
         == if sign == "" && Squeeze(tail) != "" && IsRouble(Squeeze(tail)[0]) then Some(Value(token)) else None
  {
    if sign == "" {
      UnsignedSqueezes(token, tail);
      NumberRoubles(token, Squeeze(tail));
    } else {
      SignedHasNoRoubles(sign, token, tail);
    }
  }

  // ---- Fixed points -----------------------------------------------------------------------------

  /** A canonical price is left as it is, at any rate and without a note. */
  lemma CanonicalIsFixed(s: string, rate: real)
    requires rate > 0.0 && IsCanonical(s)
    ensures MapPrice(s, rate) == (s, [])
  {
    if s == FREE {
      FreeIsFixed();
    } else if s == NEGOTIABLE {
      NegotiableTrims();
      NegotiableIsFixed();
    } else {
      var n :| 1 <= n <= 1000 && s == "$" + Decimal(n);
      BareToken("$", Decimal(n));
    }
  }

  /** A text that is a number token, with or without a dollar sign, is trimmed, free of
      keywords and not in roubles. */
  lemma BareToken(sign: string, token: string)
    requires (sign == "" || sign == "$") && Heads("", sign, token)
    ensures var raw := sign + token;
            && raw != "" && Trim(raw) == raw && Token(raw) == token && Roubles(Squeeze(raw)) == None
            && !Mentions(raw, "бесплатно") && !SameFolded(raw, "free")
            && !Mentions(raw, "договор") && !Mentions(raw, "negotiable")
  {
    var raw := sign + token;
    assert "" + sign + token + "" == raw && sign + token + "" == raw;
    HeadTrims("", sign, token, "");
    KeywordsInTail(raw, "");
    NothingMentioned();
    HeadToken(sign, token, "");
    HeadSqueezes(sign, token, "");
    assert Squeeze(raw) == raw;
    var k := RunExists(raw, false);
  }

  lemma FreeIsFixed()
    ensures Trim(FREE) == FREE && SameFolded(FREE, "free")
  {
  }

  lemma NegotiableTrims()
    ensures Trim(NEGOTIABLE) == NEGOTIABLE
  {
  }

  lemma NegotiableIsFixed()
    ensures !Mentions(NEGOTIABLE, "бесплатно") && !SameFolded(NEGOTIABLE, "free") && Mentions(NEGOTIABLE, "negotiable")
  {
    assert NEGOTIABLE[0..0 + |"negotiable"|] == NEGOTIABLE;
    assert MentionedAt(NEGOTIABLE, "negotiable", 0);
    forall i: nat | i <= |NEGOTIABLE| ensures !MentionedAt(NEGOTIABLE, "бесплатно", i) {
      if i + 9 <= |NEGOTIABLE| {
        assert NEGOTIABLE[i..i + 9][0] == NEGOTIABLE[i];
        assert Fold(NEGOTIABLE[i]) != Fold("бесплатно"[0]);
      }
    }
  }

  /** Mapping twice, at whatever rates, is mapping once. */
  lemma MappingTwiceIsMappingOnce(price: string, rate: real, again: real)
    requires rate > 0.0 && again > 0.0
    ensures MapPrice(MapPrice(price, rate).0, again) == (MapPrice(price, rate).0, [])
  {
    ResultIsCanonical(price, rate);
    CanonicalIsFixed(MapPrice(price, rate).0, again);
  }

  // ---- Thousands separators ------------------------------------------------------------------------

  function Separated(d: string): string {
    if |d| <= 3 then d else Separated(d[..|d| - 3]) + "," + d[|d| - 3..]
  }

  lemma ValueSkipsComma(s: string)
    ensures Value(s + ",") == Value(s)
  {
    assert (s + ",")[..|s|] == s;
  }

  lemma {:induction false} ValueAppends(s: string, t: string, tail: string)
    requires Value(s) == Value(t)
    ensures Value(s + tail) == Value(t + tail)
  {
    if tail == "" {
      assert s + tail == s && t + tail == t;
    } else {
      var k := |tail| - 1;
      ValueAppends(s, t, tail[..k]);
      assert (s + tail)[..|s + tail| - 1] == s + tail[..k] && (t + tail)[..|t + tail| - 1] == t + tail[..k];
    }
  }

  lemma {:induction false} SeparatedDenotesTheSame(d: string)
    requires AllDigits(d)
    ensures Value(Separated(d)) == Value(d)
    ensures |d| > 3 ==> Grouped(Separated(d))
  {
    if |d| > 3 {
      var head, tail := d[..|d| - 3], d[|d| - 3..];
      SeparatedDenotesTheSame(head);
      ValueSkipsComma(Separated(head));
      ValueAppends(Separated(head) + ",", head, tail);
      assert d == head + tail && Separated(d) == Separated(head) + "," + tail;
      assert Separated(d)[..|Separated(d)| - 4] == Separated(head);
      assert Separated(d)[|Separated(d)| - 3..] == tail;
    }
  }

  predicate Keyword(s: string) {
    Mentions(s, "бесплатно") || Mentions(s, "договор") || Mentions(s, "negotiable")
  }

  function InDollars(usd: int): string {
    if PRICE_MIN <= usd <= PRICE_MAX then "$" + Decimal(usd) else NEGOTIABLE
  }

  lemma InDollarsInjective(a: int, b: int)
    ensures InDollars(a) == InDollars(b) <==>
              a == b || (!(PRICE_MIN <= a <= PRICE_MAX) && !(PRICE_MIN <= b <= PRICE_MAX))
  {
    if PRICE_MIN <= a <= PRICE_MAX {
      assert InDollars(a)[0] == '$' && InDollars(a)[1..] == Decimal(a);
    }
    if PRICE_MIN <= b <= PRICE_MAX {
      assert InDollars(b)[0] == '$' && InDollars(b)[1..] == Decimal(b);
    }
  }

  /** The price of a text headed by a token: keywords after it first, then roubles, then
      the amount. */
  lemma TextPrice(lead: string, sign: string, token: string, rest: string, rate: real)
    requires rate > 0.0 && Heads(lead, sign, token) && (rest == "" || !InRun(rest[0], true))
    ensures MapPrice(lead + sign + token + rest, rate).0 ==
              var tail := TrimRight(rest);
              var roubles, amount := Roubles(Squeeze(sign + token + tail)), Amount(token);
              if Mentions(tail, "бесплатно") then FREE
              else if Keyword(tail) then NEGOTIABLE
              else if roubles.Some? then InDollars(Dollars(roubles.value, rate))
              else if amount.Some? then InDollars(amount.value)
              else NEGOTIABLE
  {
    var tail := TrimRight(rest);
    SqueezeTrimRight(rest);
    HeadTrims(lead, sign, token, rest);
    HeadIsPlain(sign, token);
    KeywordsInTail(sign + token, tail);
    HeadToken(sign, token, tail);
  }

  /** The price of a number token is a matter of its value and of what follows it. */
  lemma HeadPrice(lead: string, sign: string, token: string, rest: string, rate: real)
    requires rate > 0.0 && Heads(lead, sign, token) && Ends(rest) && (AllDigits(token) || Grouped(token))
    ensures MapPrice(lead + sign + token + rest, rate).0 ==
              var tail := TrimRight(rest);
              if Mentions(tail, "бесплатно") then FREE
              else if Keyword(tail) then NEGOTIABLE
              else if sign == "" && Squeeze(tail) != "" && IsRouble(Squeeze(tail)[0])
                   then InDollars(Dollars(Value(token), rate)) else InDollars(Value(token))
  {
    SqueezeTrimRight(rest);
    assert Ends(TrimRight(rest));
    HeadRoubles(sign, token, TrimRight(rest));
    TextPrice(lead, sign, token, rest, rate);
  }

  /** Well-formed thousands separators change nothing, in dollars or in roubles, when
      the text after the number does not carry the number on. */
  lemma SeparatorsAreIrrelevant(lead: string, sign: string, d: string, rest: string, rate: real)
    requires rate > 0.0 && Heads(lead, sign, d) && AllDigits(d) && Ends(rest)
    ensures MapPrice(lead + sign + Separated(d) + rest, rate).0 == MapPrice(lead + sign + d + rest, rate).0
  {
    SeparatedDenotesTheSame(d);
    if |d| > 3 { GroupedInRun(Separated(d)); }
    HeadPrice(lead, sign, d, rest, rate);
    HeadPrice(lead, sign, Separated(d), rest, rate);
  }

  // ---- Numbers carried on after white space ----------------------------------------------------------

  /** (,\d{3})* */
  predicate Groups(r: string) {
    r == "" || (|r| >= 4 && r[|r| - 4] == ',' && AllDigits(r[|r| - 3..]) && Groups(r[..|r| - 4]))
  }

  /** Four digits and more never begin a grouped number. */
  lemma {:induction false} DigitsAreNotGrouped(d: string, r: string)
    requires AllDigits(d) && |d| > 3
    ensures !Grouped(d + r)
  {
    var s := d + r;
    if |r| < 4 {
      assert s[|s| - 4] == d[|s| - 4];
    } else {
      assert s[..|s| - 4] == d + r[..|r| - 4];
      DigitsAreNotGrouped(d, r[..|r| - 4]);
    }
  }

  /** Fewer than four characters after a grouped number leave no comma where one is due. */
  lemma TooShortForAGroup(number: string, r: string)
    requires Grouped(number) && 0 < |r| < 4
    ensures !Grouped(number + r)
  {
    var s := number + r;
    assert s[|s| - 4] == number[|number| - 3..][|r| - 1];
  }

  predicate Group(g: string) {
    |g| == 4 && g[0] == ',' && AllDigits(g[1..])
  }

  /** One more group. */
  lemma GroupedSnoc(head: string, g: string)
    requires |head| > 3 && |g| == 4
    ensures Grouped(head + g) <==> Group(g) && Grouped(head)
  {
    var s := head + g;
    assert s[..|s| - 4] == head;
    assert s[|s| - 3..] == g[1..];
    assert s[|s| - 4] == g[0];
  }

  lemma GroupsSnoc(r: string, g: string)
    requires |g| == 4
    ensures Groups(r + g) <==> Group(g) && Groups(r)
  {
    var s := r + g;
    assert s[..|s| - 4] == r;
    assert s[|s| - 3..] == g[1..];
    assert s[|s| - 4] == g[0];
  }

  /** A grouped number stays one exactly when whole groups are added. */
  lemma {:induction false} SeparatedGoesOn(number: string, r: string)
    requires Grouped(number)
    ensures Grouped(number + r) <==> Groups(r)
  {
    if r == "" {
      assert number + r == number;
    } else if |r| < 4 {
      TooShortForAGroup(number, r);
    } else {
      var init, g := r[..|r| - 4], r[|r| - 4..];
      SeparatedGoesOn(number, init);
      GroupsSnoc(init, g);
      GroupedSnoc(number + init, g);
      assert r == init + g && number + r == (number + init) + g;
    }
  }

  lemma RunAppends(number: string, q: string)
    requires forall i :: 0 <= i < |number| ==> InRun(number[i], false)
    ensures Run(number + q, false) == number + Run(q, false)
  {
    var k := RunExists(q, false);
    var s := number + q;
    assert forall i :: |number| <= i < |number| + k ==> s[i] == q[i - |number|];
    RunIsLongest(s, false, |number| + k);
    assert s[..|number| + k] == number + q[..k];
  }

  /** A rouble sign right after the digits and commas that follow. */
  predicate RoubleAfterRun(q: string) {
    |Run(q, false)| < |q| && IsRouble(q[|Run(q, false)|])
  }

  lemma RunPrecedes(q: string)
    ensures Run(q, false) <= q
  {
    var k := RunExists(q, false);
  }

  lemma JoinedPlain(d: string, q: string)
    requires AllDigits(d) && |d| > 3
    ensures var r := Run(q, false);
            Roubles(d + q) == if RoubleAfterRun(q) && AllDigits(r) then Some(Value(d + r)) else None
  {
    var r := Run(q, false);
    RunAppends(d, q);
    RunPrecedes(q);
    DigitsAreNotGrouped(d, r);
    assert AllDigits(d + r) <==> AllDigits(r) by {
      assert forall i :: 0 <= i < |r| ==> (d + r)[|d| + i] == r[i];
    }
    assert RoubleAfterRun(q) ==> (d + q)[|d + r|] == q[|r|];
  }

  lemma SeparatorIsNoDigit(d: string, r: string)
    requires AllDigits(d) && |d| > 3
    ensures !AllDigits(Separated(d) + r)
  {
    SeparatedDenotesTheSame(d);
    assert (Separated(d) + r)[|Separated(d)| - 4] == ',';
  }

  lemma JoinedSeparated(d: string, q: string)
    requires AllDigits(d) && |d| > 3
    ensures var r := Run(q, false);
            Roubles(Separated(d) + q) == if RoubleAfterRun(q) && Groups(r) then Some(Value(d + r)) else None
  {
    var number, r := Separated(d), Run(q, false);
    SeparatedDenotesTheSame(d);
    GroupedInRun(number);
    RunAppends(number, q);
    RunPrecedes(q);
    ValueAppends(number, d, r);
    SeparatedGoesOn(number, r);
    SeparatorIsNoDigit(d, r);
    assert RoubleAfterRun(q) ==> (number + q)[|number + r|] == q[|r|];
  }

  function Joined(sign: string, d: string, tail: string): Option<nat> {
    var q := Squeeze(tail);
    if sign == "" && RoubleAfterRun(q) then Some(Value(d + Run(q, false))) else None
  }

  lemma JoinedPlainText(sign: string, d: string, tail: string)
    requires Heads("", sign, d) && AllDigits(d) && |d| > 3
    ensures Roubles(Squeeze(sign + d + tail))
         == if AllDigits(Run(Squeeze(tail), false)) then Joined(sign, d, tail) else None
  {
    if sign == "" {
      UnsignedSqueezes(d, tail);
      JoinedPlain(d, Squeeze(tail));
    } else {
      SignedHasNoRoubles(sign, d, tail);
    }
  }

  lemma JoinedSeparatedText(sign: string, d: string, tail: string)
    requires Heads("", sign, d) && AllDigits(d) && |d| > 3
    ensures Roubles(Squeeze(sign + Separated(d) + tail))
         == if Groups(Run(Squeeze(tail), false)) then Joined(sign, d, tail) else None
  {
    SeparatedDenotesTheSame(d);
    GroupedInRun(Separated(d));
    if sign == "" {
      UnsignedSqueezes(Separated(d), tail);
      JoinedSeparated(d, Squeeze(tail));
    } else {
      SignedHasNoRoubles(sign, Separated(d), tail);
    }
  }

  /** With white space removed, the rouble pattern joins what the white space kept apart:
      a plain number goes on with digits, a separated one with groups. */
  lemma JoinedRoubles(sign: string, d: string, tail: string)
    requires Heads("", sign, d) && AllDigits(d) && |d| > 3
    ensures var r := Run(Squeeze(tail), false);
            && Roubles(Squeeze(sign + d + tail)) == (if AllDigits(r) then Joined(sign, d, tail) else None)
            && Roubles(Squeeze(sign + Separated(d) + tail)) == (if Groups(r) then Joined(sign, d, tail) else None)
  {
    JoinedPlainText(sign, d, tail);
    JoinedSeparatedText(sign, d, tail);
  }

  /** The rouble pattern reads past white space: it takes 1000 000 руб for a million
      roubles, but 1,000 000 руб is a thousand dollars, and 1,000 ,000 руб a million
      roubles where 1000 ,000 руб is a thousand dollars. */
  predicate CarriedOn(sign: string, rest: string) {
    var r := Run(Squeeze(rest), false);
    sign == "" && r != "" && RoubleAfterRun(Squeeze(rest)) && (AllDigits(r) || Groups(r))
  }

  /** For any text after the number: the two spellings agree exactly when a keyword
      decides, the rouble pattern does not carry the number on, or both readings come to
      the same price. */
  lemma SpellingsAgreeIff(lead: string, sign: string, d: string, rest: string, rate: real)
    requires rate > 0.0 && Heads(lead, sign, d) && AllDigits(d) && |d| > 3 && (rest == "" || !InRun(rest[0], true))
    ensures var v, usd := Value(d), Dollars(Value(d + Run(Squeeze(rest), false)), rate);
            MapPrice(lead + sign + Separated(d) + rest, rate).0 == MapPrice(lead + sign + d + rest, rate).0 <==>
              || Keyword(TrimRight(rest)) || !CarriedOn(sign, rest)
              || v == usd || (!(PRICE_MIN <= v <= PRICE_MAX) && usd > PRICE_MAX)
  {
    SqueezeTrimRight(rest);
    SeparatedDenotesTheSame(d);
    GroupedInRun(Separated(d));
    JoinedRoubles(sign, d, TrimRight(rest));
    TextPrice(lead, sign, d, rest, rate);
    TextPrice(lead, sign, Separated(d), rest, rate);
    InDollarsInjective(Value(d), Dollars(Value(d + Run(Squeeze(rest), false)), rate));
  }

  lemma WholeAmount(d: string, zeros: string)
    requires AllDigits(d) && d != "" && Zeros(zeros)
    ensures Amount(d + "." + zeros) == Some(Value(d))
  {
    var t := d + "." + zeros;
    PointIsNoNumber(d, zeros);
    BeforePointOf(d, zeros);
    assert Whole(t) by {
      assert t[|d|] == '.' && t[..|d|] == d;
      assert forall j :: |d| < j < |t| ==> t[j] == zeros[j - |d| - 1];
    }
  }

  /** A separator before the point makes the token no amount at all. */
  lemma SeparatedAmount(number: string, zeros: string)
    requires Grouped(number) && Zeros(zeros)
    ensures Amount(number + "." + zeros) == None
  {
    var u := number + "." + zeros;
    GroupedInRun(number);
    PointIsNoNumber(number, zeros);
    assert forall i :: 0 <= i < |number| ==> u[i] == number[i] && InRun(u[i], false);
    forall i | 0 < i < |u| - 1 && u[i] == '.' ensures !AllDigits(u[..i]) {
      assert u[..i][|number| - 4] == number[|number| - 4] == ',';
    }
  }

  lemma PointIsNoNumber(d: string, zeros: string)
    requires zeros != "" && forall i :: 0 <= i < |d| ==> InRun(d[i], false)
    ensures !AllDigits(d + "." + zeros) && !Grouped(d + "." + zeros)
  {
    var t := d + "." + zeros;
    assert t[|d|] == '.';
    if Grouped(t) { GroupedInRun(t); }
  }

  lemma {:induction false} BeforePointOf(d: string, zeros: string)
    requires AllDigits(d)
    ensures BeforePoint(d + "." + zeros) == d
  {
    if d != "" {
      assert (d + "." + zeros)[1..] == d[1..] + "." + zeros;
      BeforePointOf(d[1..], zeros);
    }
  }

  predicate Zeros(s: string) {
    s != "" && forall i :: 0 <= i < |s| ==> s[i] == '0'
  }

  /** A number with a decimal part is never read as roubles, whatever follows it. */
  lemma DecimalsHideRoubles(sign: string, number: string, zeros: string, tail: string)
    requires Heads("", sign, number) && (forall i :: 0 <= i < |number| ==> InRun(number[i], false)) && Zeros(zeros)
    ensures Roubles(Squeeze(sign + (number + "." + zeros) + tail)) == None
  {
    var token := number + "." + zeros;
    HeadSqueezes(sign, token, tail);
    if sign == "" {
      var s := "" + token + Squeeze(tail);
      assert s[|number|] == '.' && s[..|number|] == number;
      RunIsLongest(s, false, |number|);
    } else {
      DollarsAreNoRoubles("$" + token + Squeeze(tail));
    }
  }

  /** The price of a number with a decimal part of zeros: keywords first, then the amount,
      always in dollars. */
  lemma DecimalPrice(lead: string, sign: string, number: string, zeros: string, rest: string, rate: real)
    requires rate > 0.0 && Heads(lead, sign, number) && Zeros(zeros) && (rest == "" || !InRun(rest[0], true))
    requires forall i :: 0 <= i < |number| ==> InRun(number[i], false)
    ensures MapPrice(lead + sign + (number + "." + zeros) + rest, rate).0 ==
              var tail, amount := TrimRight(rest), Amount(number + "." + zeros);
              if Mentions(tail, "бесплатно") then FREE
              else if Keyword(tail) || amount.None? then NEGOTIABLE
              else InDollars(amount.value)
  {
    DecimalsHideRoubles(sign, number, zeros, TrimRight(rest));
    TextPrice(lead, sign, number + "." + zeros, rest, rate);
  }

  /** With a decimal part of zeros the separators do matter, whatever stands around the
      number: $1000.00 / hour is $1000, while $1,000.00 / hour is left to the mentor. The
      two spellings agree exactly when a keyword decides or the amount is out of range. */
  lemma DecimalsWithSeparators(lead: string, sign: string, d: string, zeros: string, rest: string, rate: real)
    requires rate > 0.0 && Heads(lead, sign, d) && AllDigits(d) && |d| > 3 && Zeros(zeros)
    requires rest == "" || !InRun(rest[0], true)
    ensures var plain := lead + sign + (d + "." + zeros) + rest;
            var separated := lead + sign + (Separated(d) + "." + zeros) + rest;
            MapPrice(plain, rate).0 == MapPrice(separated, rate).0 <==>
              Keyword(TrimRight(rest)) || !(PRICE_MIN <= Value(d) <= PRICE_MAX)
  {
    SeparatedDenotesTheSame(d);
    GroupedInRun(Separated(d));
    WholeAmount(d, zeros);
    SeparatedAmount(Separated(d), zeros);
    DecimalPrice(lead, sign, d, zeros, rest, rate);
    DecimalPrice(lead, sign, Separated(d), zeros, rest, rate);
    InDollarsInjective(Value(d), 0);
  }

  /** A decimal part of zeros hides the rouble sign from the pattern: the amount is read
      as dollars, at whatever rate. So it leaves a rouble price as it is exactly when a
      keyword decides, the conversion changes nothing, or neither amount is in range. */
  lemma DecimalsLoseTheCurrency(lead: string, d: string, zeros: string, rest: string, rate: real)
    requires rate > 0.0 && Heads(lead, "", d) && AllDigits(d) && Zeros(zeros) && Ends(rest)
    requires Squeeze(rest) != "" && IsRouble(Squeeze(rest)[0])
    ensures var v, usd := Value(d), Dollars(Value(d), rate);
            var with, without := MapPrice(lead + (d + "." + zeros) + rest, rate).0, MapPrice(lead + d + rest, rate).0;
            && (!Keyword(TrimRight(rest)) ==> with == InDollars(v) && without == InDollars(usd))
            && (with == without <==>
                  Keyword(TrimRight(rest)) || v == usd || (!(PRICE_MIN <= v <= PRICE_MAX) && usd > PRICE_MAX))
  {
    SqueezeTrimRight(rest);
    WholeAmount(d, zeros);
    DecimalPrice(lead, "", d, zeros, rest, rate);
    HeadPrice(lead, "", d, rest, rate);
    assert lead + "" == lead;
    InDollarsInjective(Value(d), Dollars(Value(d), rate));
  }

  lemma BlankSqueezes(blank: string, unit: string)
    requires Blank(blank) && Tight(unit)
    ensures Squeeze(blank + unit) == unit
  {
    SqueezeConcat(blank, unit);
    SqueezeKeeps(blank);
    SqueezeKeeps(unit);
  }

  lemma ShortMentionsNothing(s: string)
    requires |s| < 7
    ensures !Keyword(s)
  {
  }

  /** White space and a unit that begins with a rouble sign. */
  lemma UnitTail(blank: string, unit: string)
    requires Blank(blank) && blank != "" && Tight(unit) && unit != "" && IsRouble(unit[0])
    ensures TrimRight(blank + unit) == blank + unit && Ends(blank + unit) && Squeeze(blank + unit) == unit
  {
    BlankSqueezes(blank, unit);
    assert (blank + unit)[|blank + unit| - 1] == unit[|unit| - 1];
    assert (blank + unit)[0] == blank[0];
  }

  /** 1000.00 руб is read as a thousand dollars. */
  lemma RoublesReadAsDollars(d: string, zeros: string, rate: real)
    requires rate > 0.0 && d != "" && AllDigits(d) && Zeros(zeros) && PRICE_MIN <= Value(d) <= PRICE_MAX
    ensures MapPrice(d + "." + zeros + " руб", rate).0 == "$" + Decimal(Value(d))
  {
    var rest := " руб";
    UnitTail(" ", "руб");
    assert " " + "руб" == rest;
    ShortMentionsNothing(rest);
    DecimalsLoseTheCurrency("", d, zeros, rest, rate);
    assert "" + (d + "." + zeros) + rest == d + "." + zeros + rest;
  }

  // ---- Free, and texts without a number -------------------------------------------------------

  lemma MentionsBeforePlain(head: string, tail: string, word: string)
    requires Lettered(word) && forall i :: 0 <= i < |tail| ==> Plain(tail[i])
    ensures Mentions(head + tail, word) <==> Mentions(head, word)
  {
    var s, k := head + tail, |word|;
    if Mentions(s, word) {
      var i: nat :| i <= |s| && MentionedAt(s, word, i);
      assert s[i..i + k][k - 1] == s[i + k - 1];
      if i + k > |head| { LetterIsNotPlain(word[k - 1], s[i + k - 1]); }
      assert s[i..i + k] == head[i..i + k];
      assert MentionedAt(head, word, i);
    }
    if Mentions(head, word) {
      var i: nat :| i <= |head| && MentionedAt(head, word, i);
      assert s[i..i + k] == head[i..i + k];
      assert MentionedAt(s, word, i);
    }
  }

  lemma {:induction false} LeftSplits(s: string) returns (k: nat)
    ensures k <= |s| && TrimLeft(s) == s[k..]
    ensures (forall i :: 0 <= i < k ==> IsSpace(s[i])) && (k < |s| ==> !IsSpace(s[k]))
  {
    k := 0;
    if s != "" && IsSpace(s[0]) {
      var rest := s[1..];
      var j := LeftSplits(rest);
      k := j + 1;
      assert rest[j..] == s[k..];
      forall i | 0 <= i < k ensures IsSpace(s[i]) { if i > 0 { assert s[i] == rest[i - 1]; } }
    }
  }

  lemma {:induction false} RightSplits(s: string) returns (k: nat)
    ensures k <= |s| && TrimRight(s) == s[..k]
    ensures (forall i :: k <= i < |s| ==> IsSpace(s[i])) && (k > 0 ==> !IsSpace(s[k - 1]))
  {
    k := |s|;
    if s != "" && IsSpace(s[|s| - 1]) {
      var rest := s[..|s| - 1];
      k := RightSplits(rest);
      assert rest[..k] == s[..k];
      forall i | k <= i < |s| ensures IsSpace(s[i]) { if i < |s| - 1 { assert s[i] == rest[i]; } }
    }
  }

  /** Trimming takes white space off both ends and nothing else. */
  lemma TrimSplits(s: string) returns (i: nat, j: nat)
    ensures i <= j <= |s| && Trim(s) == s[i..j] && Blank(s[..i]) && Blank(s[j..])
    ensures i < j ==> !IsSpace(s[i]) && !IsSpace(s[j - 1])
  {
    i := LeftSplits(s);
    var k := RightSplits(s[i..]);
    j := i + k;
    assert s[i..][..k] == s[i..j] && s[i..][k..] == s[j..];
    if i < j { assert s[i..][k - 1] == s[j - 1]; }
  }

  lemma TrimKeepsMentions(s: string, word: string)
    requires Lettered(word)
    ensures Mentions(Trim(s), word) <==> Mentions(s, word)
  {
    var i, j := TrimSplits(s);
    assert s[..i] + s[i..j] + s[j..] == s;
    MentionsBeforePlain(s[..i] + s[i..j], s[j..], word);
    MentionsAfterPlain(s[..i], s[i..j], word);
  }

  lemma TrimKeepsKeyword(s: string)
    ensures Mentions(Trim(s), "бесплатно") <==> Mentions(s, "бесплатно")
    ensures Keyword(Trim(s)) <==> Keyword(s)
  {
    assert Lettered("бесплатно") && Lettered("договор") && Lettered("negotiable");
    TrimKeepsMentions(s, "бесплатно");
    TrimKeepsMentions(s, "договор");
    TrimKeepsMentions(s, "negotiable");
  }

  predicate Framed(s: string, lead: string, word: string, tail: string) {
    Blank(lead) && Blank(tail) && s == lead + word + tail
  }

  /** Nothing but a word that reads as this one, and white space. */
  ghost predicate IsJust(s: string, word: string) {
    exists lead, w, tail :: Framed(s, lead, w, tail) && SameFolded(w, word)
  }

  lemma BlankTrims(s: string)
    ensures Trim(s) == "" <==> Blank(s)
  {
    var i, j := TrimSplits(s);
    assert Trim(s) == "" ==> s[..i] + s[j..] == s;
  }

  lemma {:induction false} BlankTrimsRight(s: string)
    requires Blank(s)
    ensures TrimRight(s) == ""
  {
    if s != "" { BlankTrimsRight(s[..|s| - 1]); }
  }

  lemma WordTrims(lead: string, w: string, tail: string)
    requires Blank(lead) && Blank(tail) && w != "" && !IsSpace(w[0]) && !IsSpace(w[|w| - 1])
    ensures Trim(lead + w + tail) == w
  {
    assert lead + w + tail == lead + (w + tail);
    TrimLeftSkips(lead, w + tail);
    TrimRightStops(w, tail);
    BlankTrimsRight(tail);
    assert w + "" == w;
  }

  lemma FreeWordIsTight(w: string)
    requires SameFolded(w, "free")
    ensures w != "" && !IsSpace(w[0]) && !IsSpace(w[|w| - 1])
  {
    assert Fold(w[0]) == Fold('f') && Fold(w[3]) == Fold('e');
  }

  lemma FreeWordFramed(s: string)
    requires SameFolded(Trim(s), "free")
    ensures IsJust(s, "free")
  {
    var i, j := TrimSplits(s);
    assert s[..i] + s[i..j] + s[j..] == s;
    assert Framed(s, s[..i], s[i..j], s[j..]);
  }

  lemma FreeWordTrims(s: string)
    ensures IsJust(s, "free") <==> SameFolded(Trim(s), "free")
  {
    if IsJust(s, "free") {
      var lead, w, tail :| Framed(s, lead, w, tail) && SameFolded(w, "free");
      FreeWordIsTight(w);
      WordTrims(lead, w, tail);
    }
    if SameFolded(Trim(s), "free") { FreeWordFramed(s); }
  }

  lemma NoAmountIsFree(usd: int)
    ensures forall length, note :: Canonical(usd, length, note).0 != FREE
  {
    if PRICE_MIN <= usd <= PRICE_MAX { assert ("$" + Decimal(usd))[0] == '$'; }
  }

  lemma FreeBranch(price: string, rate: real)
    requires rate > 0.0
    ensures var raw := Trim(price);
            MapPrice(price, rate).0 == FREE <==> raw == "" || Mentions(raw, "бесплатно") || SameFolded(raw, "free")
  {
    var raw := Trim(price);
    var roubles, amount := Roubles(Squeeze(raw)), Amount(Token(raw));
    if roubles.Some? { NoAmountIsFree(Dollars(roubles.value, rate)); }
    if amount.Some? { NoAmountIsFree(amount.value); }
  }

  /** A price is free only if the text is blank, speaks of бесплатно, or is the word free. */
  lemma FreeIff(price: string, rate: real)
    requires rate > 0.0
    ensures MapPrice(price, rate).0 == FREE <==> Blank(price) || Mentions(price, "бесплатно") || IsJust(price, "free")
  {
    FreeBranch(price, rate);
    BlankTrims(price);
    TrimKeepsKeyword(price);
    FreeWordTrims(price);
  }

  /** The text does not begin with a number, with or without a dollar sign. */
  predicate Numberless(lead: string, sign: string, rest: string) {
    && Blank(lead) && (sign == "" || (sign[0] == '$' && Blank(sign[1..])))
    && rest != "" && !IsSpace(rest[0]) && !InRun(rest[0], true) && (sign == "" ==> rest[0] != '$')
  }

  lemma LeadTrims(lead: string, s: string)
    requires Blank(lead) && s != "" && !IsSpace(s[0])
    ensures Trim(lead + s) == TrimRight(s)
  {
    TrimLeftSkips(lead, s);
  }

  lemma NumberlessTrimsRight(sign: string, first: char, more: string)
    requires !IsSpace(first)
    ensures TrimRight(sign + ([first] + more)) == sign + ([first] + TrimRight(more))
  {
    TrimRightStops(sign + [first], more);
    assert sign + ([first] + more) == sign + [first] + more;
    assert sign + ([first] + TrimRight(more)) == sign + [first] + TrimRight(more);
  }

  lemma NumberlessTrims(lead: string, sign: string, rest: string)
    requires Numberless(lead, sign, rest)
    ensures Trim(lead + sign + rest) == sign + ([rest[0]] + TrimRight(rest[1..]))
  {
    assert (sign + rest)[0] == if sign == "" then rest[0] else '$';
    LeadTrims(lead, sign + rest);
    assert lead + sign + rest == lead + (sign + rest);
    assert rest == [rest[0]] + rest[1..];
    NumberlessTrimsRight(sign, rest[0], rest[1..]);
  }

  lemma NumberlessHasNoToken(sign: string, rest: string)
    requires Numberless("", sign, rest)
    ensures Token(sign + rest) == ""
  {
    TrimLeftSkips(if sign == "" then "" else sign[1..], rest);
    assert sign == "" ==> sign + rest == rest && "" + rest == rest;
    assert sign != "" ==> (sign + rest)[1..] == sign[1..] + rest;
    assert Run(rest, true) == "";
  }

  lemma NumberlessHasNoRoubles(sign: string, rest: string)
    requires Numberless("", sign, rest)
    ensures Roubles(Squeeze(sign + rest)) == None
  {
    SignSqueezes(sign);
    SqueezeConcat(sign, rest);
    assert Squeeze(rest)[0] == rest[0];
    var s := Squeeze(sign + rest);
    assert s[0] == if sign == "" then rest[0] else '$';
    assert Run(s, false) == "";
  }

  /** Such a text is free or left to the mentor: no price is made up for it. */
  lemma NumberlessIsNeverPriced(lead: string, sign: string, rest: string, rate: real)
    requires rate > 0.0 && Numberless(lead, sign, rest)
    ensures var price := lead + sign + rest;
            MapPrice(price, rate).0
            == if Mentions(price, "бесплатно") || IsJust(price, "free") then FREE else NEGOTIABLE
  {
    var core := [rest[0]] + TrimRight(rest[1..]);
    NumberlessTrims(lead, sign, rest);
    NumberlessHasNoToken(sign, core);
    NumberlessHasNoRoubles(sign, core);
    TrimKeepsKeyword(lead + sign + rest);
    FreeWordTrims(lead + sign + rest);
  }

  lemma TrimIsTrimmed(s: string)
    ensures Trim(Trim(s)) == Trim(s)
  {
    var i, j := TrimSplits(s);
    if i < j {
      WordTrims("", s[i..j], "");
      assert "" + s[i..j] + "" == s[i..j];
    }
  }

  predicate Verbatim(s: string, n: nat) {
    1 <= n <= 1000 && s == "$" + Decimal(n)
  }

  /** Past the keywords a price without a note is one already in its final form. */
  lemma UnnotedIsVerbatim(price: string, rate: real)
    requires rate > 0.0 && MapPrice(price, rate).1 == []
    requires !Keyword(Trim(price)) && !SameFolded(Trim(price), "free")
    ensures exists n :: Verbatim(Trim(price), n)
  {
    var raw := Trim(price);
    if Roubles(Squeeze(raw)).None? && Amount(Token(raw)).Some? {
      assert raw == "$" + Decimal(Amount(Token(raw)).value);
      assert Verbatim(raw, Amount(Token(raw)).value);
    }
  }

  lemma NamedIsUnnoted(price: string, rate: real)
    requires rate > 0.0 && (Keyword(Trim(price)) || SameFolded(Trim(price), "free"))
    ensures MapPrice(price, rate).1 == []
  {
    ShortMentionsNothing("");
  }

  /** The operator is told of every price that was not written as it is stored, or called
      free or negotiable by name: there is no note exactly in those cases. */
  lemma UnnotedIff(price: string, rate: real)
    requires rate > 0.0
    ensures MapPrice(price, rate).1 == [] <==>
              Keyword(price) || IsJust(price, "free") || exists n :: Verbatim(Trim(price), n)
  {
    TrimKeepsKeyword(price);
    FreeWordTrims(price);
    if Keyword(price) || IsJust(price, "free") {
      NamedIsUnnoted(price, rate);
    } else if MapPrice(price, rate).1 == [] {
      UnnotedIsVerbatim(price, rate);
    } else if exists n :: Verbatim(Trim(price), n) {
      var n :| Verbatim(Trim(price), n);
      TrimIsTrimmed(price);
      assert MapPrice(price, rate) == MapPrice(Trim(price), rate);
      CanonicalIsFixed(Trim(price), rate);
    }
  }
}
