/** withDigest: sets the digest field of an upload URL's raw query without
    disturbing any other byte. Texts are sequences of octets held in chars. */
module Query {
  import opened Basics
  import opened Wire

  // ---------------------------------------------------------------- query escaping

  /** A char that stands for one octet. */
  predicate IsOctet(c: char) { c < '\U{0100}' }

  predicate Octets(s: string) { forall i :: 0 <= i < |s| ==> IsOctet(s[i]) }

  /** Characters url.QueryEscape leaves alone. */
  predicate Unreserved(c: char) {
    'a' <= c <= 'z' || 'A' <= c <= 'Z' || '0' <= c <= '9' || c in "-_.~"
  }

  function HexDigit(n: nat): (c: char)
    requires n < 16
    ensures Unreserved(c) && HexValue(c) == Some(n)
  {
    if n < 10 then '0' + n as char else 'A' + (n - 10) as char
  }

  function HexValue(c: char): Option<nat> {
    if '0' <= c <= '9' then Some((c - '0') as int)
    else if 'a' <= c <= 'f' then Some((c - 'a') as int + 10)
    else if 'A' <= c <= 'F' then Some((c - 'A') as int + 10)
    else None
  }

  function EscapeOctet(c: char): (s: string)
    requires IsOctet(c)
  {
    if Unreserved(c) then [c]
    else if c == ' ' then "+"
    else ['%', HexDigit(c as int / 16), HexDigit(c as int % 16)]
  }

  /** url.QueryEscape */
  function Escape(s: string): string
    requires Octets(s)
  {
    if s == "" then "" else EscapeOctet(s[0]) + Escape(s[1..])
  }

  /** url.QueryUnescape: None where it reports an error. */
  function Unescape(s: string): Option<string> {
    if s == "" then Some("")
    else if s[0] == '%' then
      if |s| < 3 || HexValue(s[1]).None? || HexValue(s[2]).None? then None
      else
        var rest := Unescape(s[3..]);
        if rest.None? then None
        else Some([(16 * HexValue(s[1]).value + HexValue(s[2]).value) as char] + rest.value)
    else
      var rest := Unescape(s[1..]);
      if rest.None? then None
      else Some([if s[0] == '+' then ' ' else s[0]] + rest.value)
  }

  /** What an escaped text is made of. */
  lemma {:induction false} EscapeIsSafe(s: string)
    requires Octets(s)
    ensures forall c :: c in Escape(s) ==>
              'a' <= c <= 'z' || 'A' <= c <= 'Z' || '0' <= c <= '9' || c in "-_.~+%"
  {
    if s != "" { EscapeIsSafe(s[1..]); }
  }

  lemma EscapeHasNoAmpersand(s: string)
    requires Octets(s)
    ensures '&' !in Escape(s)
  {
    EscapeIsSafe(s);
  }

  lemma OctetRoundTrip(c: char, rest: string)
    requires IsOctet(c) && Unescape(rest).Some?
    ensures Unescape(EscapeOctet(c) + rest) == Some([c] + Unescape(rest).value)
  {
    var e := EscapeOctet(c);
    var t := e + rest;
    if |e| == 3 {
      assert t[0] == '%' && t[1] == e[1] && t[2] == e[2] && t[3..] == rest;
      assert 16 * (c as int / 16) + c as int % 16 == c as int;
    } else {
      assert t[0] == e[0] && t[1..] == rest;
    }
  }

  /** Unescaping inverts escaping. */
  lemma {:induction false} UnescapeEscape(s: string)
    requires Octets(s)
    ensures Unescape(Escape(s)) == Some(s)
  {
    if s != "" {
      UnescapeEscape(s[1..]);
      OctetRoundTrip(s[0], Escape(s[1..]));
      assert s == [s[0]] + s[1..];
    }
  }

  // ---------------------------------------------------------------- fields

  /** strings.Split(q, "&") */
  function Fields(q: string): (parts: seq<string>)
    ensures parts != []
  {
    if q == "" then [""]
    else
      var rest := Fields(q[1..]);
      if q[0] == '&' then [""] + rest else [[q[0]] + rest[0]] + rest[1..]
  }

  /** strings.Join(parts, "&") */
  function Join(parts: seq<string>): string
    requires parts != []
  {
    if |parts| == 1 then parts[0] else parts[0] + "&" + Join(parts[1..])
  }

  lemma {:induction false} JoinFields(q: string)
    ensures Join(Fields(q)) == q
  {
    if q != "" {
      JoinFields(q[1..]);
      var rest := Fields(q[1..]);
      assert q == [q[0]] + q[1..];
      if q[0] == '&' {
        assert Fields(q)[1..] == rest;
      } else {
        var parts := [[q[0]] + rest[0]] + rest[1..];
        if |rest| > 1 {
          assert parts[1..] == rest[1..];
          assert Join(parts) == [q[0]] + rest[0] + "&" + Join(rest[1..]);
        }
      }
    }
  }

  predicate Plain(parts: seq<string>) {
    forall k :: 0 <= k < |parts| ==> '&' !in parts[k]
  }

  lemma {:induction false} FieldsArePlain(q: string)
    ensures Plain(Fields(q))
  {
    if q != "" { FieldsArePlain(q[1..]); }
  }

  /** A field in front of the rest. */
  lemma {:induction false} FieldsCons(head: string, tail: string)
    requires '&' !in head
    ensures Fields(head + "&" + tail) == [head] + Fields(tail)
  {
    var q := head + "&" + tail;
    if head == "" {
      assert q[1..] == tail;
    } else {
      assert q[1..] == head[1..] + "&" + tail;
      FieldsCons(head[1..], tail);
      assert head == [head[0]] + head[1..];
    }
  }

  lemma {:induction false} FieldsOfPlain(head: string)
    requires '&' !in head
    ensures Fields(head) == [head]
  {
    if head != "" {
      FieldsOfPlain(head[1..]);
      assert head == [head[0]] + head[1..];
    }
  }

  lemma {:induction false} FieldsJoin(parts: seq<string>)
    requires parts != [] && Plain(parts)
    ensures Fields(Join(parts)) == parts
  {
    if |parts| == 1 {
      FieldsOfPlain(parts[0]);
    } else {
      assert Plain(parts[1..]);
      FieldsJoin(parts[1..]);
      FieldsCons(parts[0], Join(parts[1..]));
    }
  }

  // ---------------------------------------------------------------- rewriting one field

  function KeyOf(part: string): string { Cut(part, '=').before }

  /** The raw value behind the first "=". */
  function ValueText(part: string): string { Cut(part, '=').after }

  const DIGEST_KEY := "digest"

  predicate IsDigestField(part: string) { Unescape(KeyOf(part)) == Some(DIGEST_KEY) }

  function Assign(key: string, digest: string): string
    requires Octets(digest)
  {
    key + ['='] + Escape(digest)
  }

  function Rewrite(part: string, digest: string): string
    requires Octets(digest)
  {
    if IsDigestField(part) then Assign(KeyOf(part), digest) else part
  }

  lemma KeyHasNoEquals(part: string)
    ensures '=' !in KeyOf(part)
  {}

  lemma AssignedField(key: string, digest: string)
    requires '=' !in key && Octets(digest)
    ensures KeyOf(Assign(key, digest)) == key && ValueText(Assign(key, digest)) == Escape(digest)
  {
    CutSplits(Assign(key, digest), key, '=', Escape(digest));
  }

  /** Rewriting keeps a digest field a digest field, and the last value wins. */
  lemma RewriteTwice(part: string, d1: string, d2: string)
    requires Octets(d1) && Octets(d2)
    ensures IsDigestField(Rewrite(part, d1)) <==> IsDigestField(part)
    ensures Rewrite(Rewrite(part, d1), d2) == Rewrite(part, d2)
  {
    KeyHasNoEquals(part);
    AssignedField(KeyOf(part), d1);
  }

  lemma RewriteIsPlain(part: string, digest: string)
    requires '&' !in part && Octets(digest)
    ensures '&' !in Rewrite(part, digest)
  {
    EscapeHasNoAmpersand(digest);
    var h := Cut(part, '=');
    assert forall c :: c in h.before ==> c in part;
  }

  // ---------------------------------------------------------------- the whole query

  predicate HasDigest(parts: seq<string>) {
    exists k :: 0 <= k < |parts| && IsDigestField(parts[k])
  }

  function RewriteAll(parts: seq<string>, digest: string): (r: seq<string>)
    requires Octets(digest)
    ensures |r| == |parts|
    ensures forall k :: 0 <= k < |parts| ==> r[k] == Rewrite(parts[k], digest)
  {
    seq(|parts|, k requires 0 <= k < |parts| => Rewrite(parts[k], digest))
  }

  function NewField(digest: string): string
    requires Octets(digest)
  {
    DIGEST_KEY + ['='] + Escape(digest)
  }

  /** The raw query with its digest fields set, or one appended. */
  function WithDigest(q: string, digest: string): string
    requires Octets(digest)
  {
    if HasDigest(Fields(q)) then Join(RewriteAll(Fields(q), digest))
    else if q == "" then NewField(digest)
    else q + "&" + NewField(digest)
  }

  lemma NewFieldIsDigest(digest: string)
    requires Octets(digest)
    ensures IsDigestField(NewField(digest)) && '&' !in NewField(digest)
    ensures ValueText(NewField(digest)) == Escape(digest)
    ensures forall d2 :: Octets(d2) ==> Rewrite(NewField(digest), d2) == NewField(d2)
  {
    hide Unescape, Escape, IndexOf;
    EscapeHasNoAmpersand(digest);
    var key := DIGEST_KEY;
    assert NewField(digest) == Assign(key, digest);
    AssignedField(key, digest);
    UnescapeUnreserved(key);
    forall d2 | Octets(d2)
      ensures Rewrite(NewField(digest), d2) == NewField(d2)
    {
      assert NewField(d2) == Assign(key, d2);
    }
  }

  lemma {:induction false} UnescapeUnreserved(s: string)
    requires forall i :: 0 <= i < |s| ==> Unreserved(s[i])
    ensures Unescape(s) == Some(s)
  {
    if s != "" {
      UnescapeUnreserved(s[1..]);
      assert s == [s[0]] + s[1..];
    }
  }

  /** What the fields of the result are. */
  lemma FieldsAfter(q: string, digest: string)
    requires Octets(digest)
    ensures Fields(WithDigest(q, digest)) ==
      if HasDigest(Fields(q)) then RewriteAll(Fields(q), digest)
      else if q == "" then [NewField(digest)]
      else Fields(q) + [NewField(digest)]
  {
    var parts := Fields(q);
    FieldsArePlain(q);
    NewFieldIsDigest(digest);
    if HasDigest(parts) {
      forall k | 0 <= k < |parts|
        ensures '&' !in RewriteAll(parts, digest)[k]
      {
        RewriteIsPlain(parts[k], digest);
      }
      FieldsJoin(RewriteAll(parts, digest));
    } else if q == "" {
      FieldsOfPlain(NewField(digest));
    } else {
      AppendField(q, NewField(digest));
    }
  }

  lemma {:induction false} AppendField(q: string, part: string)
    requires '&' !in part
    ensures Fields(q + "&" + part) == Fields(q) + [part]
  {
    if q == "" {
      assert q + "&" + part == "" + "&" + part;
      FieldsCons("", part);
      FieldsOfPlain(part);
    } else {
      AppendField(q[1..], part);
      assert (q + "&" + part)[1..] == q[1..] + "&" + part;
    }
  }

  /** Every other field stays where it is, byte for byte; there is a digest
      field; and each one decodes to the new digest. */
  lemma OnlyDigestChanges(q: string, digest: string)
    requires Octets(digest)
    ensures var before := Fields(q); var after := Fields(WithDigest(q, digest));
      && (q != "" ==> |before| <= |after| && forall k :: 0 <= k < |before| && !IsDigestField(before[k]) ==> after[k] == before[k])
      && HasDigest(after)
      && forall k :: 0 <= k < |after| && IsDigestField(after[k]) ==> Unescape(ValueText(after[k])) == Some(digest)
  {
    var before := Fields(q);
    var after := Fields(WithDigest(q, digest));
    FieldsAfter(q, digest);
    NewFieldIsDigest(digest);
    UnescapeEscape(digest);
    if HasDigest(before) {
      var k :| 0 <= k < |before| && IsDigestField(before[k]);
      RewriteTwice(before[k], digest, digest);
      assert IsDigestField(after[k]);
    } else {
      assert IsDigestField(after[|after| - 1]);
    }
    forall k | 0 <= k < |after| && IsDigestField(after[k])
      ensures Unescape(ValueText(after[k])) == Some(digest)
    {
      if k < |before| && HasDigest(before) {
        RewriteTwice(before[k], digest, digest);
        KeyHasNoEquals(before[k]);
        AssignedField(KeyOf(before[k]), digest);
      }
    }
  }

  lemma RewriteAllTwice(parts: seq<string>, d1: string, d2: string)
    requires Octets(d1) && Octets(d2)
    ensures RewriteAll(RewriteAll(parts, d1), d2) == RewriteAll(parts, d2)
  {
    forall k | 0 <= k < |parts|
      ensures RewriteAll(RewriteAll(parts, d1), d2)[k] == RewriteAll(parts, d2)[k]
    {
      RewriteTwice(parts[k], d1, d2);
    }
  }

  /** Fields without a digest field do not change. */
  lemma RewriteAppended(parts: seq<string>, d1: string, d2: string)
    requires Octets(d1) && Octets(d2) && !HasDigest(parts)
    ensures RewriteAll(parts + [NewField(d1)], d2) == parts + [NewField(d2)]
  {
    NewFieldIsDigest(d1);
    var r := RewriteAll(parts + [NewField(d1)], d2);
    forall k | 0 <= k < |r|
      ensures r[k] == (parts + [NewField(d2)])[k]
    {
      assert k < |parts| ==> !IsDigestField(parts[k]);
    }
  }

  /** Setting d1 and then d2 is setting d2. */
  lemma LastWriteWins(q: string, d1: string, d2: string)
    requires Octets(d1) && Octets(d2)
    ensures WithDigest(WithDigest(q, d1), d2) == WithDigest(q, d2)
  {
    var parts := Fields(q);
    var once := Fields(WithDigest(q, d1));
    FieldsAfter(q, d1);
    assert HasDigest(once) by { OnlyDigestChanges(q, d1); }
    if HasDigest(parts) {
      RewriteAllTwice(parts, d1, d2);
    } else if q == "" {
      RewriteAppended([], d1, d2);
      assert [] + [NewField(d1)] == [NewField(d1)] && [] + [NewField(d2)] == [NewField(d2)];
    } else {
      RewriteAppended(parts, d1, d2);
      JoinSnoc(parts, NewField(d2));
      JoinFields(q);
    }
  }

  lemma {:induction false} JoinSnoc(parts: seq<string>, part: string)
    requires parts != []
    ensures Join(parts + [part]) == Join(parts) + "&" + part
  {
    if |parts| > 1 {
      JoinSnoc(parts[1..], part);
      assert (parts + [part])[1..] == parts[1..] + [part];
    }
  }

  // ---------------------------------------------------------------- every spelling of the key

  /** One octet in a raw query: itself, a plus for a blank, or its two hexadecimal digits
      behind a percent sign, in either case. */
  predicate SpellsOctet(text: string, c: char) {
    || (text == [c] && c != '%' && c != '+')
    || (text == "+" && c == ' ')
    || (|text| == 3 && text[0] == '%' && exists high, low ::
          0 <= high < 16 && 0 <= low < 16 && 16 * high + low == c as int
          && text[1] in [UPPER[high], LOWER[high]] && text[2] in [UPPER[low], LOWER[low]])
  }

  const UPPER := "0123456789ABCDEF"
  const LOWER := "0123456789abcdef"

  lemma HexIsExact(c: char, n: nat)
    requires n < 16
    ensures HexValue(c) == Some(n) <==> c in [UPPER[n], LOWER[n]]
  {
  }

  /** s is one spelling after another of the chars of t. */
  ghost predicate Spelled(s: string, t: string)
    decreases |t|
  {
    if t == "" then s == ""
    else exists k :: 0 < k <= |s| && SpellsOctet(s[..k], t[0]) && Spelled(s[k..], t[1..])
  }

  lemma SpelledOnce(s: string, k: nat, t: string)
    requires t != "" && 0 < k <= |s| && SpellsOctet(s[..k], t[0]) && Unescape(s[k..]) == Some(t[1..])
    ensures Unescape(s) == Some(t)
  {
    hide SpellsOctet, HexValue;
    assert t == [t[0]] + t[1..];
    OctetSpelled(s[..k], t[0]);
    assert s[..k][0] == s[0] && (k == 3 ==> s[..k][1] == s[1] && s[..k][2] == s[2]);
  }

  lemma OctetSpelled(text: string, c: char)
    requires SpellsOctet(text, c)
    ensures if |text| == 1 then text[0] != '%' && c == (if text[0] == '+' then ' ' else text[0])
            else |text| == 3 && text[0] == '%' && HexValue(text[1]).Some? && HexValue(text[2]).Some?
                 && 16 * HexValue(text[1]).value + HexValue(text[2]).value == c as int
  {
    if |text| == 3 { SpelledInHex(text, c); }
  }

  lemma SpelledInHex(text: string, c: char)
    requires |text| == 3 && text[0] == '%' && SpellsOctet(text, c)
    ensures HexValue(text[1]).Some? && HexValue(text[2]).Some?
    ensures 16 * HexValue(text[1]).value + HexValue(text[2]).value == c as int
  {
    var high, low :| 0 <= high < 16 && 0 <= low < 16 && 16 * high + low == c as int
                     && text[1] in [UPPER[high], LOWER[high]] && text[2] in [UPPER[low], LOWER[low]];
    HexIsExact(text[1], high);
    HexIsExact(text[2], low);
  }

  lemma UnescapedOnce(s: string, t: string) returns (k: nat)
    requires s != "" && Unescape(s) == Some(t)
    ensures t != "" && 0 < k <= |s| && SpellsOctet(s[..k], t[0]) && Unescape(s[k..]) == Some(t[1..])
  {
    k := if s[0] == '%' then 3 else 1;
    if s[0] == '%' {
      HexIsExact(s[1], HexValue(s[1]).value);
      HexIsExact(s[2], HexValue(s[2]).value);
      assert 16 * HexValue(s[1]).value + HexValue(s[2]).value == t[0] as int;
    }
  }

  /** Decoding yields t exactly for the spellings of t. */
  lemma {:induction false} UnescapeIsExact(s: string, t: string)
    ensures Unescape(s) == Some(t) <==> Spelled(s, t)
    decreases |s|
  {
    hide SpellsOctet;
    if s != "" && Unescape(s) == Some(t) {
      var k := UnescapedOnce(s, t);
      UnescapeIsExact(s[k..], t[1..]);
    }
    if t != "" && Spelled(s, t) {
      var k :| 0 < k <= |s| && SpellsOctet(s[..k], t[0]) && Spelled(s[k..], t[1..]);
      UnescapeIsExact(s[k..], t[1..]);
      SpelledOnce(s, k, t);
    }
  }

  /** A field of the name "digest", however it is spelled, with a value or without. */
  ghost predicate NamesDigest(part: string, key: string) {
    && Spelled(key, "digest") && '=' !in key
    && (part == key || exists value :: part == key + ['='] + value)
  }

  lemma NamedIsDigestField(part: string, key: string)
    ensures NamesDigest(part, key) ==> KeyOf(part) == key && IsDigestField(part)
    ensures IsDigestField(part) ==> NamesDigest(part, KeyOf(part))
  {
    hide Spelled, Unescape;
    UnescapeIsExact(KeyOf(part), "digest");
    if NamesDigest(part, key) {
      UnescapeIsExact(key, "digest");
      if part == key {
        NoSeparator(part, '=');
      } else {
        var value :| part == key + ['='] + value;
        CutSplits(part, key, '=', value);
      }
    }
    if IsDigestField(part) && KeyOf(part) != part { assert part == KeyOf(part) + ['='] + ValueText(part); }
  }

  lemma NoSeparator(s: string, c: char)
    requires c !in s
    ensures Cut(s, c) == Halves(s, "", false)
  {
  }

  lemma NamedAreDigestFields(parts: seq<string>)
    ensures HasDigest(parts) <==> exists i, key :: 0 <= i < |parts| && NamesDigest(parts[i], key)
  {
    hide NamesDigest, IsDigestField, KeyOf;
    if HasDigest(parts) {
      var i :| 0 <= i < |parts| && IsDigestField(parts[i]);
      NamedIsDigestField(parts[i], KeyOf(parts[i]));
    }
    if i, key :| 0 <= i < |parts| && NamesDigest(parts[i], key) {
      NamedIsDigestField(parts[i], key);
    }
  }

  /** A field of the name gets the new value and keeps its spelling; another one stays. */
  lemma RewritesTheNamed(part: string, digest: string)
    requires Octets(digest)
    ensures forall key :: NamesDigest(part, key) ==> Rewrite(part, digest) == key + "=" + Escape(digest)
    ensures (forall key :: !NamesDigest(part, key)) ==> Rewrite(part, digest) == part
  {
    hide NamesDigest, IsDigestField, KeyOf, Escape;
    NamedIsDigestField(part, KeyOf(part));
    forall key | NamesDigest(part, key)
      ensures Rewrite(part, digest) == key + "=" + Escape(digest)
    {
      NamedIsDigestField(part, key);
    }
  }

  /** However the name is spelled, percent-escaped letters included: every field of that
      name gets the new value and keeps its spelling, every other one stays byte for byte,
      and if there is none, one is appended. */
  lemma EverySpellingIsSet(q: string, digest: string)
    requires Octets(digest)
    ensures var before := Fields(q); var after := Fields(WithDigest(q, digest));
      if exists i, key :: 0 <= i < |before| && NamesDigest(before[i], key) then
        && |after| == |before|
        && (forall i, key :: 0 <= i < |before| && NamesDigest(before[i], key) ==> after[i] == key + "=" + Escape(digest))
        && (forall i :: 0 <= i < |before| && (forall key :: !NamesDigest(before[i], key)) ==> after[i] == before[i])
      else after == (if q == "" then [] else before) + ["digest=" + Escape(digest)]
  {
    hide NamesDigest, IsDigestField, Escape, WithDigest, KeyOf, Rewrite, Fields;
    var before := Fields(q);
    FieldsAfter(q, digest);
    NamedAreDigestFields(before);
    if HasDigest(before) {
      forall i | 0 <= i < |before|
        ensures forall key :: NamesDigest(before[i], key) ==> RewriteAll(before, digest)[i] == key + "=" + Escape(digest)
        ensures (forall key :: !NamesDigest(before[i], key)) ==> RewriteAll(before, digest)[i] == before[i]
      {
        RewritesTheNamed(before[i], digest);
      }
    } else {
      assert NewField(digest) == "digest=" + Escape(digest);
    }
  }

  /** The first letter escaped is a spelling too. */
  lemma EscapedLetterIsSpelled()
    ensures Unescape("%64igest") == Some("digest") && Spelled("%64igest", "digest")
  {
    hide Spelled;
    var s := "%64igest";
    UnescapeUnreserved("igest");
    assert s[3..] == "igest" && HexValue('6') == Some(6) && HexValue('4') == Some(4);
    assert ['d'] + "igest" == "digest";
    UnescapeIsExact(s, "digest");
  }

  // ---------------------------------------------------------------- the code

  /** The loop of withDigest: rewrites the split parts in place. */
  method RewriteInPlace(parts: array<string>, digest: string) returns (replaced: bool)
    requires Octets(digest)
    modifies parts
    ensures parts[..] == RewriteAll(old(parts[..]), digest)
    ensures replaced <==> HasDigest(old(parts[..]))
  {
    hide IsDigestField, Rewrite;
    ghost var fields := parts[..];
    replaced := false;
    for i := 0 to parts.Length
      invariant forall k :: 0 <= k < i ==> parts[k] == Rewrite(fields[k], digest)
      invariant forall k :: i <= k < parts.Length ==> parts[k] == fields[k]
      invariant replaced <==> exists k :: 0 <= k < i && IsDigestField(fields[k])
    {
      replaced := replaced || IsDigestField(parts[i]);
      parts[i] := Rewrite(parts[i], digest);
    }
  }

  method SetDigest(rawQuery: string, digest: string) returns (result: string)
    requires Octets(digest)
    ensures result == WithDigest(rawQuery, digest)
  {
    var fields := Fields(rawQuery);
    var parts := new string[|fields|](k requires 0 <= k < |fields| => fields[k]);
    assert parts[..] == fields;
    var replaced := RewriteInPlace(parts, digest);
    if replaced {
      return Join(parts[..]);
    }
    if rawQuery == "" {
      return NewField(digest);
    }
    return rawQuery + "&" + NewField(digest);
  }
}
