/** The header texts the transfer engine trusts: Content-Range, the 416 form of
    it, and an upload session's Range acknowledgement. Each parser is proved
    equal to a grammar, and the first also to be the inverse of printing. Texts
    are sequences of runes. */
module Wire {
  import opened Basics

  // ---------------------------------------------------------------- text

  /** Position of the first c in s, or |s|. */
  function IndexOf(s: string, c: char): (i: nat)
    ensures i <= |s|
    ensures c !in s[..i]
    ensures i < |s| ==> s[i] == c
  {
    if s == [] then 0
    else if s[0] == c then 0
    else
      var rest := IndexOf(s[1..], c);
      assert s[..rest + 1] == [s[0]] + s[1..][..rest];
      rest + 1
  }

  datatype Halves = Halves(before: string, after: string, found: bool)

  /** strings.Cut at a one-rune separator. */
  function Cut(s: string, c: char): (h: Halves)
    ensures h.found ==> s == h.before + [c] + h.after
  {
    var i := IndexOf(s, c);
    if i < |s| then Halves(s[..i], s[i + 1..], true) else Halves(s, "", false)
  }

  /** Cut splits at the separator that the left part does not contain. */
  lemma {:induction false} CutSplits(s: string, left: string, c: char, right: string)
    requires s == left + [c] + right && c !in left
    ensures Cut(s, c) == Halves(left, right, true)
  {
    IndexSkips(left, c, right);
    assert s[|left|] == c;
  }

  lemma {:induction false} IndexSkips(left: string, c: char, right: string)
    requires c !in left
    ensures IndexOf(left + [c] + right, c) == |left|
  {
    var s := left + [c] + right;
    if left != [] {
      assert s[0] == left[0];
      assert s[1..] == left[1..] + [c] + right;
      IndexSkips(left[1..], c, right);
    }
  }

  /** strings.EqualFold(unit, "bytes"): Unicode folding lets U+017F stand for an s. */
  predicate FoldsToBytes(unit: string) {
    && |unit| == 5
    && unit[0] in "bB" && unit[1] in "yY" && unit[2] in "tT" && unit[3] in "eE"
    && unit[4] in "sS\U{017F}"
  }

  /** The unit in any mix of upper and lower case, and with a long s. */
  lemma UnitIsExact(unit: string)
    ensures FoldsToBytes(unit) <==>
      |unit| == 5 && forall i :: 0 <= i < 5 ==>
        unit[i] == "bytes"[i] || unit[i] == "BYTES"[i] || (i == 4 && unit[i] == '\U{017F}')
  {}

  // ---------------------------------------------------------------- decimals

  predicate IsDigit(c: char) { '0' <= c <= '9' }

  predicate AllDigits(text: string) { forall i :: 0 <= i < |text| ==> IsDigit(text[i]) }

  function DigitValue(c: char): (d: nat)
    requires IsDigit(c)
    ensures d < 10
  {
    (c - '0') as int
  }

  /** The number a digit sequence denotes, most significant digit first. */
  function Value(text: string): nat
    requires AllDigits(text)
  {
    if text == [] then 0 else 10 * Value(text[..|text| - 1]) + DigitValue(text[|text| - 1])
  }

  /** Digits without sign or space, no larger than an int64. */
  function ParseDecimal(text: string): Option<nat> {
    if text == "" || !AllDigits(text) || Value(text) > MAX_INT64 then None else Some(Value(text))
  }

  function Digit(d: nat): (c: char)
    requires d < 10
    ensures IsDigit(c) && DigitValue(c) == d
  {
    '0' + d as char
  }

  /** The shortest decimal text of n. */
  function PrintDecimal(n: nat): (text: string)
    ensures text != "" && AllDigits(text)
  {
    if n < 10 then [Digit(n)] else PrintDecimal(n / 10) + [Digit(n % 10)]
  }

  /** The digits are the usual ones, most significant first. */
  lemma PrintsInBaseTen()
    ensures forall d: nat :: d < 10 ==> PrintDecimal(d) == ["0123456789"[d]]
    ensures PrintDecimal(1204) == "1204"
  {
    assert PrintDecimal(1) == "1";
    assert PrintDecimal(12) == "12";
    assert PrintDecimal(120) == "120";
  }

  lemma {:induction false} ValueOfPrint(n: nat)
    ensures Value(PrintDecimal(n)) == n
  {
    var text := PrintDecimal(n);
    if n >= 10 {
      ValueOfPrint(n / 10);
      assert text[..|text| - 1] == PrintDecimal(n / 10);
    } else {
      assert text[..|text| - 1] == [];
    }
  }

  lemma ParsePrintedDecimal(n: nat)
    requires n <= MAX_INT64
    ensures ParseDecimal(PrintDecimal(n)) == Some(n)
  {
    ValueOfPrint(n);
  }

  // What a decimal is, without reading one: leading zeros and the shortest text.

  function Zeros(k: nat): (text: string)
    ensures |text| == k && forall i :: 0 <= i < k ==> text[i] == '0'
  {
    seq(k, i => '0')
  }

  predicate SpellsDecimal(text: string, zeros: nat, n: nat) { text == Zeros(zeros) + PrintDecimal(n) }

  lemma {:induction false} ValueOfZeros(k: nat)
    ensures Value(Zeros(k)) == 0
  {
    if k > 0 {
      ValueOfZeros(k - 1);
      assert Zeros(k)[..k - 1] == Zeros(k - 1);
    }
  }

  lemma {:induction false} ValueOfSpelling(zeros: nat, n: nat)
    ensures AllDigits(Zeros(zeros) + PrintDecimal(n)) && Value(Zeros(zeros) + PrintDecimal(n)) == n
    decreases n
  {
    var text := Zeros(zeros) + PrintDecimal(n);
    var head := text[..|text| - 1];
    if n >= 10 {
      ValueOfSpelling(zeros, n / 10);
      assert head == Zeros(zeros) + PrintDecimal(n / 10);
    } else {
      ValueOfZeros(zeros);
      assert head == Zeros(zeros);
    }
  }

  /** One more digit behind a number that is not zero. */
  lemma SpellNext(head: string, zeros: nat, n: nat, last: char)
    requires SpellsDecimal(head, zeros, n) && n > 0 && IsDigit(last)
    ensures SpellsDecimal(head + [last], zeros, 10 * n + DigitValue(last))
  {
    var m := 10 * n + DigitValue(last);
    assert m / 10 == n && m % 10 == DigitValue(last) && Digit(m % 10) == last;
    assert PrintDecimal(m) == PrintDecimal(n) + [last];
    hide PrintDecimal;
    assert Zeros(zeros) + PrintDecimal(n) + [last] == Zeros(zeros) + (PrintDecimal(n) + [last]);
  }

  /** One more digit behind nothing but zeros. */
  lemma SpellFirst(head: string, zeros: nat, last: char)
    requires SpellsDecimal(head, zeros, 0) && IsDigit(last)
    ensures SpellsDecimal(head + [last], zeros + 1, DigitValue(last))
  {
    assert PrintDecimal(0) == ['0'];
    assert Zeros(zeros) + ['0'] == Zeros(zeros + 1);
    assert PrintDecimal(DigitValue(last)) == [last];
  }

  /** Every digit sequence is leading zeros and the shortest text of its value. */
  lemma {:induction false} DigitsSpell(text: string) returns (zeros: nat)
    requires text != "" && AllDigits(text)
    ensures SpellsDecimal(text, zeros, Value(text))
  {
    hide PrintDecimal, Zeros;
    var head, last := text[..|text| - 1], text[|text| - 1];
    assert text == head + [last];
    if head == "" {
      OneDigitSpells(last);
      assert Value(text) == DigitValue(last);
      zeros := 0;
    } else {
      zeros := DigitsSpell(head);
      hide SpellsDecimal;
      if Value(head) == 0 {
        SpellFirst(head, zeros, last);
        zeros := zeros + 1;
      } else {
        SpellNext(head, zeros, Value(head), last);
      }
    }
  }

  lemma OneDigitSpells(c: char)
    requires IsDigit(c)
    ensures SpellsDecimal([c], 0, DigitValue(c))
  {
    assert Zeros(0) == "" && PrintDecimal(DigitValue(c)) == [c];
  }

  /** The decimals that are read are exactly the spelled ones within int64. */
  lemma DecimalIsExact(text: string, n: nat)
    ensures ParseDecimal(text) == Some(n) <==> n <= MAX_INT64 && exists zeros :: SpellsDecimal(text, zeros, n)
  {
    if ParseDecimal(text) == Some(n) {
      var zeros := DigitsSpell(text);
    }
    if zeros :| SpellsDecimal(text, zeros, n) {
      ValueOfSpelling(zeros, n);
    }
  }

  // ---------------------------------------------------------------- Content-Range

  /** A byte interval of a representation, both ends inclusive. */
  datatype ContentRange = ContentRange(start: nat, end: nat, total: nat)

  /** What a usable interval satisfies (section 14.4 of RFC 9110). */
  predicate InBounds(r: ContentRange) {
    r.start <= r.end < r.total <= MAX_INT64
  }

  function ParseContentRange(header: string): (r: Option<ContentRange>)
    ensures r.Some? ==> InBounds(r.value)
  {
    var unit := Cut(header, ' ');
    if !unit.found || !FoldsToBytes(unit.before) then None else
    var slash := Cut(unit.after, '/');
    if !slash.found then None else
    var dash := Cut(slash.before, '-');
    if !dash.found then None else
    var start := ParseDecimal(dash.before);
    if start.None? then None else
    var end := ParseDecimal(dash.after);
    if end.None? || end.value < start.value then None else
    var total := ParseDecimal(slash.after);
    if total.None? || total.value <= end.value then None else
    Some(ContentRange(start.value, end.value, total.value))
  }

  /** header is: unit, a blank, first "-" last, "/", length. */
  predicate Spells(header: string, unit: string, first: string, last: string, length: string) {
    header == unit + [' '] + ((first + ['-'] + last) + ['/'] + length)
  }

  /** The texts that denote r. */
  ghost predicate Denotes(header: string, r: ContentRange) {
    exists unit, first, last, length ::
      && Spells(header, unit, first, last, length)
      && FoldsToBytes(unit)
      && ParseDecimal(first) == Some(r.start)
      && ParseDecimal(last) == Some(r.end)
      && ParseDecimal(length) == Some(r.total)
  }

  lemma ParsesParts(header: string, unit: string, first: string, last: string, length: string, r: ContentRange)
    requires Spells(header, unit, first, last, length) && FoldsToBytes(unit) && InBounds(r)
    requires ParseDecimal(first) == Some(r.start)
    requires ParseDecimal(last) == Some(r.end)
    requires ParseDecimal(length) == Some(r.total)
    ensures ParseContentRange(header) == Some(r)
  {
    var interval := first + ['-'] + last;
    var rest := interval + ['/'] + length;
    CutSplits(header, unit, ' ', rest);
    CutSplits(rest, interval, '/', length);
    CutSplits(interval, first, '-', last);
  }

  lemma DenotesWhatParses(header: string, r: ContentRange)
    requires ParseContentRange(header) == Some(r)
    ensures Denotes(header, r) && InBounds(r)
  {
    var unit := Cut(header, ' ');
    var slash := Cut(unit.after, '/');
    var dash := Cut(slash.before, '-');
    assert Spells(header, unit.before, dash.before, dash.after, slash.after);
  }

  /** The parser accepts exactly the texts that denote an interval in bounds. */
  lemma ParseContentRangeIsExact(header: string, r: ContentRange)
    ensures ParseContentRange(header) == Some(r) <==> Denotes(header, r) && InBounds(r)
  {
    if ParseContentRange(header) == Some(r) {
      DenotesWhatParses(header, r);
    }
    if Denotes(header, r) && InBounds(r) {
      var unit, first, last, length :|
        && Spells(header, unit, first, last, length)
        && FoldsToBytes(unit)
        && ParseDecimal(first) == Some(r.start)
        && ParseDecimal(last) == Some(r.end)
        && ParseDecimal(length) == Some(r.total);
      ParsesParts(header, unit, first, last, length, r);
    }
  }

  function PrintContentRange(r: ContentRange): string {
    "bytes " + PrintDecimal(r.start) + "-" + PrintDecimal(r.end) + "/" + PrintDecimal(r.total)
  }

  /** Parsing inverts printing. */
  lemma ParsePrintedContentRange(r: ContentRange)
    requires InBounds(r)
    ensures ParseContentRange(PrintContentRange(r)) == Some(r)
  {
    ParsePrintedDecimal(r.start);
    ParsePrintedDecimal(r.end);
    ParsePrintedDecimal(r.total);
    assert Spells(PrintContentRange(r), "bytes", PrintDecimal(r.start), PrintDecimal(r.end), PrintDecimal(r.total));
    ParsesParts(PrintContentRange(r), "bytes", PrintDecimal(r.start), PrintDecimal(r.end), PrintDecimal(r.total), r);
  }

  // ---------------------------------------------------------------- unsatisfied ranges

  /** unicode.IsSpace */
  predicate IsSpace(c: char) {
    c in "\t\n\U{000B}\U{000C}\r \U{0085}\U{00A0}\U{1680}\U{2028}\U{2029}\U{202F}\U{205F}\U{3000}"
    || '\U{2000}' <= c <= '\U{200A}'
  }

  function TrimLeft(s: string): string {
    if s != "" && IsSpace(s[0]) then TrimLeft(s[1..]) else s
  }

  function TrimRight(s: string): string {
    if s != "" && IsSpace(s[|s| - 1]) then TrimRight(s[..|s| - 1]) else s
  }

  // The total of "bytes */<total>", or None.
  function UnsatisfiedRangeTotal(header: string): Option<nat> {
    var unit := Cut(TrimRight(TrimLeft(header)), ' ');
    if !unit.found || !FoldsToBytes(unit.before) then None else
    var slash := Cut(unit.after, '/');
    if !slash.found || slash.before != "*" then None else ParseDecimal(slash.after)
  }

  /** A trimmed header that spells an unsatisfied range of the given total. */
  predicate UnsatisfiedSpells(trimmed: string, unit: string, star: string, number: string) {
    trimmed == unit + [' '] + (star + ['/'] + number) && star == "*" && FoldsToBytes(unit)
  }

  lemma UnsatisfiedParts(header: string, unit: string, star: string, number: string)
    requires UnsatisfiedSpells(TrimRight(TrimLeft(header)), unit, star, number)
    ensures UnsatisfiedRangeTotal(header) == ParseDecimal(number)
  {
    var rest := star + ['/'] + number;
    CutSplits(TrimRight(TrimLeft(header)), unit, ' ', rest);
    CutSplits(rest, star, '/', number);
  }

  ghost predicate SpellsUnsatisfied(header: string, total: nat) {
    exists unit, star, number ::
      UnsatisfiedSpells(TrimRight(TrimLeft(header)), unit, star, number) && ParseDecimal(number) == Some(total)
  }

  lemma UnsatisfiedIsSpelled(header: string, total: nat)
    requires UnsatisfiedRangeTotal(header) == Some(total)
    ensures SpellsUnsatisfied(header, total)
  {
    var trimmed := TrimRight(TrimLeft(header));
    var unit := Cut(trimmed, ' ');
    var slash := Cut(unit.after, '/');
    assert UnsatisfiedSpells(trimmed, unit.before, slash.before, slash.after);
  }

  /** A 416 names a total exactly when its trimmed header spells that total. */
  lemma UnsatisfiedTotalIsExact(header: string, total: nat)
    ensures UnsatisfiedRangeTotal(header) == Some(total) <==> SpellsUnsatisfied(header, total)
  {
    if UnsatisfiedRangeTotal(header) == Some(total) {
      UnsatisfiedIsSpelled(header, total);
    }
    if SpellsUnsatisfied(header, total) {
      var unit, star, number :|
        UnsatisfiedSpells(TrimRight(TrimLeft(header)), unit, star, number) && ParseDecimal(number) == Some(total);
      UnsatisfiedParts(header, unit, star, number);
    }
  }

  /** Spaces around a text, of the kinds that ASCII has. */
  predicate Blank(s: string) { forall i :: 0 <= i < |s| ==> s[i] in " \t\n\r\U{000B}\U{000C}" }

  lemma {:induction false} TrimsLeft(left: string, s: string)
    requires Blank(left) && (s == "" || !IsSpace(s[0]))
    ensures TrimLeft(left + s) == s
  {
    if left == "" {
      assert left + s == s;
    } else {
      assert (left + s)[1..] == left[1..] + s;
      TrimsLeft(left[1..], s);
    }
  }

  lemma {:induction false} TrimsRight(s: string, right: string)
    requires Blank(right) && s != "" && !IsSpace(s[|s| - 1])
    ensures TrimRight(s + right) == s
    decreases |right|
  {
    if right == "" {
      assert s + right == s;
    } else {
      var n := |right| - 1;
      assert (s + right)[..|s + right| - 1] == s + right[..n];
      TrimsRight(s, right[..n]);
    }
  }

  /** A total as registries print it is read, whatever blanks surround it. */
  lemma PrintedTotalIsRead(left: string, total: nat, right: string)
    requires Blank(left) && Blank(right) && total <= MAX_INT64
    ensures UnsatisfiedRangeTotal(left + ("bytes */" + PrintDecimal(total)) + right) == Some(total)
  {
    hide PrintDecimal, UnsatisfiedRangeTotal, ParseDecimal, TrimLeft, TrimRight, UnsatisfiedSpells;
    var number := PrintDecimal(total);
    var text := "bytes */" + number;
    ParsePrintedDecimal(total);
    assert !IsSpace(text[|text| - 1]) by { DigitIsNoSpace(text[|text| - 1]); }
    assert left + text + right == left + (text + right);
    TrimsLeft(left, text + right);
    TrimsRight(text, right);
    TotalIsSpelled(number);
    UnsatisfiedParts(left + text + right, "bytes", "*", number);
  }

  lemma DigitIsNoSpace(c: char)
    requires IsDigit(c)
    ensures !IsSpace(c)
  {}

  lemma TotalIsSpelled(number: string)
    ensures UnsatisfiedSpells("bytes */" + number, "bytes", "*", number)
  {
    assert "bytes */" + number == "bytes" + [' '] + ("*" + ['/'] + number);
  }

  // ---------------------------------------------------------------- upload acknowledgements

  /** strconv.ParseInt in base ten, for the values the caller keeps: a leading
      sign is allowed there, so "-0" and "+5" pass. */
  function ParseNonNegative(text: string): Option<nat> {
    if text != "" && text[0] == '+' then ParseDecimal(text[1..])
    else if text != "" && text[0] == '-' then
      (if ParseDecimal(text[1..]) == Some(0) then Some(0) else None)
    else ParseDecimal(text)
  }

  function TrimBytesPrefix(header: string): string {
    if "bytes=" <= header then header[6..] else header
  }

  /** The inclusive end of an acknowledged range "0-<end>". */
  function ParseRangeAck(header: string): Option<nat> {
    var dash := Cut(TrimBytesPrefix(header), '-');
    if !dash.found || dash.before != "0" then None else ParseNonNegative(dash.after)
  }

  /** The two spellings of an acknowledgement whose end is written as text. */
  predicate AckSpells(header: string, text: string) {
    header == "0-" + text || header == "bytes=0-" + text
  }

  lemma AckParses(header: string, text: string)
    requires AckSpells(header, text)
    ensures ParseRangeAck(header) == ParseNonNegative(text)
  {
    hide ParseNonNegative;
    var body := TrimBytesPrefix(header);
    assert body == "0-" + text by {
      if header == "0-" + text {
        assert header[0] == '0' && "bytes="[0] == 'b';
      } else {
        assert header[..6] == "bytes=";
      }
    }
    CutSplits(body, "0", '-', text);
  }

  /** The texts of `end`: a decimal, with a plus in front or not, or a negative zero. */
  ghost predicate SpellsEnd(text: string, end: nat) {
    exists digits ::
      && ParseDecimal(digits) == Some(end)
      && (text == digits || text == "+" + digits || (text == "-" + digits && end == 0))
  }

  lemma SignedIsExact(text: string, end: nat)
    ensures ParseNonNegative(text) == Some(end) <==> SpellsEnd(text, end)
  {
    if ParseNonNegative(text) == Some(end) {
      var digits := if text[0] == '+' || text[0] == '-' then text[1..] else text;
      assert text == digits || text == "+" + digits || text == "-" + digits;
      assert ParseDecimal(digits) == Some(end);
    }
    if digits :| ParseDecimal(digits) == Some(end)
                 && (text == digits || text == "+" + digits || (text == "-" + digits && end == 0)) {
      assert IsDigit(digits[0]);
      if text != digits { assert text[1..] == digits; }
    }
  }

  /** The acknowledgement of end is accepted exactly in the forms "0-<end>" and
      "bytes=0-<end>". */
  lemma RangeAckIsExact(header: string, end: nat)
    ensures ParseRangeAck(header) == Some(end) <==> exists text :: AckSpells(header, text) && SpellsEnd(text, end)
  {
    hide ParseNonNegative, SpellsEnd;
    if ParseRangeAck(header) == Some(end) {
      AckIsSpelled(header);
      var text :| AckSpells(header, text) && ParseNonNegative(text) == ParseRangeAck(header);
      SignedIsExact(text, end);
    }
    if text :| AckSpells(header, text) && SpellsEnd(text, end) {
      SignedIsExact(text, end);
      AckParses(header, text);
    }
  }

  /** An acknowledgement as registries print it is accepted, whatever was acknowledged. */
  lemma PrintedAckIsAccepted(end: nat)
    requires end <= MAX_INT64
    ensures ParseRangeAck("0-" + PrintDecimal(end)) == Some(end)
    ensures ParseRangeAck("bytes=0-" + PrintDecimal(end)) == Some(end)
  {
    var text := PrintDecimal(end);
    ParsePrintedDecimal(end);
    SignedIsExact(text, end);
    AckParses("0-" + text, text);
    AckParses("bytes=0-" + text, text);
  }

  /** What is accepted has one of the two spellings. */
  lemma AckIsSpelled(header: string)
    requires ParseRangeAck(header).Some?
    ensures exists text :: AckSpells(header, text) && ParseNonNegative(text) == ParseRangeAck(header)
  {
    hide ParseNonNegative, TrimBytesPrefix, IndexOf;
    var body := TrimBytesPrefix(header);
    var dash := Cut(body, '-');
    assert body == "0-" + dash.after by { hide AckSpells; }
    TrimmedIsSuffix(header);
    PrefixedAck(dash.after);
    assert AckSpells(header, dash.after);
  }

  lemma TrimmedIsSuffix(header: string)
    ensures header == TrimBytesPrefix(header) || header == "bytes=" + TrimBytesPrefix(header)
  {
  }

  lemma PrefixedAck(text: string)
    ensures "bytes=" + ("0-" + text) == "bytes=0-" + text
  {
  }
}
