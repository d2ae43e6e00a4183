/** The search form of the landing page: it refuses a blank query, then an
    empty tribunal selection, and otherwise navigates to the results page
    with the query percent-encoded and the tribunal ids joined by commas.
    Percent-encoding (`encodeURIComponent`) is modelled over Unicode scalar
    values, together with its inverse. */
module SearchForm {
  import opened Wrappers
  import opened SeqOps
  import TribunalSelector

  const QueryRequired := "Digite um termo para buscar"
  const TribunalRequired := "Selecione pelo menos um tribunal"

  /** The initial `selectedTribunals` state of the page. */
  const DefaultSelection: seq<string> :=
    ["stf", "stj", "tst", "tse", "stm", "tcu", "tnu", "tru", "cnj", "tj", "trf", "trt", "tre", "tjm", "tce"]

  /** The page starts with every tribunal of the selector, in the selector's
      order. */
  lemma DefaultSelectionIsSelectorTable()
    ensures DefaultSelection == TribunalSelector.HandleSelectAll()
  {
  }

  // ---------------------------------------------------------------------
  // String.prototype.trim

  /** The characters `trim` removes: white space (tab, vertical tab, form
      feed, space, no-break space, byte order mark and the other space
      separators) and line terminators. */
  predicate IsWhitespace(c: char)
  {
    c == '\t' || c == '\n' || c == '\U{000B}' || c == '\U{000C}' || c == '\r' || c == ' '
    || c == '\U{00A0}' || c == '\U{1680}' || ('\U{2000}' <= c <= '\U{200A}')
    || c == '\U{2028}' || c == '\U{2029}' || c == '\U{202F}' || c == '\U{205F}'
    || c == '\U{3000}' || c == '\U{FEFF}'
  }

  /** The string without its leading white space. */
  function TrimStart(s: string): (r: string)
    ensures |r| <= |s| && r == s[|s| - |r|..]
    ensures forall i :: 0 <= i < |s| - |r| ==> IsWhitespace(s[i])
    ensures r != [] ==> !IsWhitespace(r[0])
  {
    if s != [] && IsWhitespace(s[0]) then TrimStart(s[1..]) else s
  }

  /** The string without its trailing white space. */
  function TrimEnd(s: string): (r: string)
    ensures |r| <= |s| && r == s[..|r|]
    ensures forall i :: |r| <= i < |s| ==> IsWhitespace(s[i])
    ensures r != [] ==> !IsWhitespace(r[|r| - 1])
  {
    if s != [] && IsWhitespace(s[|s| - 1]) then TrimEnd(s[..|s| - 1]) else s
  }

  /** `String.prototype.trim`; what it keeps is stated by the lemmas
      below. */
  function Trim(s: string): string
  {
    TrimEnd(TrimStart(s))
  }

  /** Cutting the end off a suffix of `s` leaves a slice of `s`. */
  lemma SliceOfSuffix(s: string, i: nat, m: nat)
    requires i <= |s| && m <= |s| - i
    ensures s[i..][..m] == s[i..i + m]
  {
  }

  /** `trim` returns a piece of the string: it starts where the leading
      white space ends. */
  lemma TrimIsSlice(s: string)
    ensures var i := |s| - |TrimStart(s)|;
      i + |Trim(s)| <= |s| && Trim(s) == s[i..i + |Trim(s)|]
  {
    var t := TrimStart(s);
    var r := TrimEnd(t);
    var i := |s| - |t|;
    assert t == s[i..];
    assert r == t[..|r|];
    SliceOfSuffix(s, i, |r|);
  }

  /** Everything `trim` cuts off, before and after the piece it keeps, is
      white space. */
  lemma TrimCutsOnlyWhitespace(s: string)
    ensures forall k :: 0 <= k < |s| - |TrimStart(s)| ==> IsWhitespace(s[k])
    ensures forall k :: |s| - |TrimStart(s)| + |Trim(s)| <= k < |s| ==> IsWhitespace(s[k])
  {
    var t := TrimStart(s);
    var i := |s| - |t|;
    var j := i + |Trim(s)|;
    assert t == s[i..];
    forall k | j <= k < |s|
      ensures IsWhitespace(s[k])
    {
      assert s[k] == t[k - i];
    }
  }

  /** What `trim` keeps neither starts nor ends with white space. */
  lemma TrimKeepsNoEdgeWhitespace(s: string)
    ensures Trim(s) != [] ==> !IsWhitespace(Trim(s)[0]) && !IsWhitespace(Trim(s)[|Trim(s)| - 1])
  {
    var t := TrimStart(s);
    if Trim(s) != [] {
      assert Trim(s)[0] == t[0];
    }
  }

  /** A query trims to nothing exactly when it is all white space. */
  lemma {:induction false} BlankIffAllWhitespace(s: string)
    ensures Trim(s) == [] <==> forall k :: 0 <= k < |s| ==> IsWhitespace(s[k])
  {
    TrimCutsOnlyWhitespace(s);
    if Trim(s) != [] {
      TrimIsSlice(s);
      TrimKeepsNoEdgeWhitespace(s);
      var i := |s| - |TrimStart(s)|;
      assert s[i] == Trim(s)[0];
    }
  }

  // ---------------------------------------------------------------------
  // encodeURIComponent and its inverse

  /** The characters `encodeURIComponent` leaves as they are. */
  predicate Unreserved(c: char)
  {
    ('A' <= c <= 'Z') || ('a' <= c <= 'z') || ('0' <= c <= '9')
    || c == '-' || c == '_' || c == '.' || c == '!' || c == '~' || c == '*'
    || c == '\'' || c == '(' || c == ')'
  }

  /** The UTF-8 bytes of a code point: its bits in groups of six, the
      leading byte marking the length. */
  function Utf8(c: char): (bytes: seq<nat>)
    ensures 1 <= |bytes| <= 4
    ensures forall k :: 0 <= k < |bytes| ==> bytes[k] < 256
  {
    var n := c as int;
    var n1, n2, n3 := n / 64, n / 64 / 64, n / 64 / 64 / 64;
    if n < 0x80 then [n]
    else if n < 0x800 then [0xC0 + n1, 0x80 + n % 64]
    else if n < 0x10000 then [0xE0 + n2, 0x80 + n1 % 64, 0x80 + n % 64]
    else [0xF0 + n3, 0x80 + n2 % 64, 0x80 + n1 % 64, 0x80 + n % 64]
  }

  /** An upper-case hexadecimal digit. */
  function HexDigit(v: nat): (c: char)
    requires v < 16
    ensures Unreserved(c)
  {
    if v < 10 then ('0' as int + v) as char else ('A' as int + v - 10) as char
  }

  /** The value of a hexadecimal digit of either case. */
  function HexValue(c: char): (v: Option<nat>)
    ensures v.Some? ==> v.value < 16
  {
    if '0' <= c <= '9' then Some(c as int - '0' as int)
    else if 'A' <= c <= 'F' then Some(c as int - 'A' as int + 10)
    else if 'a' <= c <= 'f' then Some(c as int - 'a' as int + 10)
    else None
  }

  /** `%XY` for a byte. */
  function PercentByte(b: nat): (r: string)
    requires b < 256
    ensures |r| == 3 && r[0] == '%'
  {
    ['%', HexDigit(b / 16), HexDigit(b % 16)]
  }

  function PercentBytes(bytes: seq<nat>): (r: string)
    requires forall k :: 0 <= k < |bytes| ==> bytes[k] < 256
    ensures |r| == 3 * |bytes|
  {
    if bytes == [] then [] else PercentByte(bytes[0]) + PercentBytes(bytes[1..])
  }

  /** The encoding of one character. */
  function EncodeChar(c: char): (r: string)
    ensures 1 <= |r| <= 12
  {
    if Unreserved(c) then [c] else PercentBytes(Utf8(c))
  }

  /** `encodeURIComponent`: unreserved characters stay, every other one
      becomes the percent escapes of its UTF-8 bytes. The result holds only
      unreserved characters and `%`, so no `&`, `=`, `#` or `,`. */
  function EncodeURIComponent(s: string): (r: string)
    ensures forall k :: 0 <= k < |r| ==> Unreserved(r[k]) || r[k] == '%'
  {
    if s == [] then []
    else
      EncodeCharSafe(s[0]);
      EncodeChar(s[0]) + EncodeURIComponent(s[1..])
  }

  lemma EncodeCharSafe(c: char)
    ensures forall k :: 0 <= k < |EncodeChar(c)| ==> Unreserved(EncodeChar(c)[k]) || EncodeChar(c)[k] == '%'
  {
    if !Unreserved(c) {
      PercentBytesSafe(Utf8(c));
    }
  }

  lemma {:induction false} PercentBytesSafe(bytes: seq<nat>)
    requires forall k :: 0 <= k < |bytes| ==> bytes[k] < 256
    ensures forall k :: 0 <= k < |PercentBytes(bytes)| ==> Unreserved(PercentBytes(bytes)[k]) || PercentBytes(bytes)[k] == '%'
  {
    if bytes != [] {
      PercentBytesSafe(bytes[1..]);
      var head, tail := PercentByte(bytes[0]), PercentBytes(bytes[1..]);
      assert PercentBytes(bytes) == head + tail;
      forall k | 0 <= k < |head + tail|
        ensures Unreserved((head + tail)[k]) || (head + tail)[k] == '%'
      {
        if k >= 3 {
          assert (head + tail)[k] == tail[k - 3];
        }
      }
    }
  }

  /** The byte of the escape `%XY` at position `3 * k` of `s`, if there is
      one. */
  function EscapedByte(s: string, k: nat): (b: Option<nat>)
    ensures b.Some? ==> 3 * k + 3 <= |s| && b.value < 256
  {
    if 3 * k + 3 <= |s| && s[3 * k] == '%' then
      match (HexValue(s[3 * k + 1]), HexValue(s[3 * k + 2]))
      case (Some(hi), Some(lo)) => Some(16 * hi + lo)
      case _ => None
    else None
  }

  predicate Continuation(b: nat) { 0x80 <= b < 0xC0 }

  /** A code point that a `char` can hold: not a surrogate, not past the
      last plane. */
  predicate IsScalarValue(n: int)
  {
    (0 <= n < 0xD800) || (0xE000 <= n < 0x110000)
  }

  /** Decodes the escaped UTF-8 sequence at the start of `s`: the character
      and the number of characters read. Overlong forms, surrogates, values
      past the last plane and stray continuation bytes are refused, as
      `decodeURIComponent` refuses them. */
  function DecodeEscapedChar(s: string): (r: Option<(char, nat)>)
    ensures r.Some? ==> 3 <= r.value.1 <= |s|
  {
    match EscapedByte(s, 0)
    case None => None
    case Some(b0) =>
      if b0 < 0x80 then Some((b0 as char, 3))
      else if 0xC0 <= b0 < 0xE0 then
        match EscapedByte(s, 1)
        case Some(b1) =>
          var n := (b0 as int - 0xC0) * 64 + (b1 as int - 0x80);
          if Continuation(b1) && 0x80 <= n then Some((n as char, 6)) else None
        case None => None
      else if 0xE0 <= b0 < 0xF0 then
        match (EscapedByte(s, 1), EscapedByte(s, 2))
        case (Some(b1), Some(b2)) =>
          var n := ((b0 as int - 0xE0) * 64 + (b1 as int - 0x80)) * 64 + (b2 as int - 0x80);
          if Continuation(b1) && Continuation(b2) && 0x800 <= n && IsScalarValue(n) then Some((n as char, 9)) else None
        case _ => None
      else if 0xF0 <= b0 < 0xF8 then
        match (EscapedByte(s, 1), EscapedByte(s, 2), EscapedByte(s, 3))
        case (Some(b1), Some(b2), Some(b3)) =>
          var n := (((b0 as int - 0xF0) * 64 + (b1 as int - 0x80)) * 64 + (b2 as int - 0x80)) * 64 + (b3 as int - 0x80);
          if Continuation(b1) && Continuation(b2) && Continuation(b3) && 0x10000 <= n < 0x110000 then Some((n as char, 12)) else None
        case _ => None
      else None
  }

  /** `decodeURIComponent`; `None` where it throws a `URIError`. */
  function DecodeURIComponent(s: string): (r: Option<string>)
    decreases |s|
  {
    if s == [] then Some([])
    else if s[0] != '%' then
      match DecodeURIComponent(s[1..])
      case Some(rest) => Some([s[0]] + rest)
      case None => None
    else
      match DecodeEscapedChar(s)
      case None => None
      case Some((c, used)) =>
        match DecodeURIComponent(s[used..])
        case Some(rest) => Some([c] + rest)
        case None => None
  }

  lemma HexRoundTrip(v: nat)
    requires v < 16
    ensures HexValue(HexDigit(v)) == Some(v)
  {
  }

  /** Reading the `k`-th escape past a three-character prefix. */
  lemma EscapedByteShift(x: string, y: string, k: nat)
    requires |x| == 3 && k >= 1
    ensures EscapedByte(x + y, k) == EscapedByte(y, k - 1)
  {
    var s := x + y;
    if 3 * k + 3 <= |s| {
      assert s[3 * k] == y[3 * (k - 1)];
      assert s[3 * k + 1] == y[3 * (k - 1) + 1];
      assert s[3 * k + 2] == y[3 * (k - 1) + 2];
    }
  }

  /** The escapes of some bytes read back as those bytes, whatever follows
      them. */
  lemma {:induction false} PercentBytesRead(bytes: seq<nat>, rest: string, k: nat)
    requires forall i :: 0 <= i < |bytes| ==> bytes[i] < 256
    requires k < |bytes|
    ensures EscapedByte(PercentBytes(bytes) + rest, k) == Some(bytes[k])
  {
    var head, tail := PercentByte(bytes[0]), PercentBytes(bytes[1..]) + rest;
    assert PercentBytes(bytes) + rest == head + tail;
    if k == 0 {
      var b := bytes[0];
      HexRoundTrip(b / 16);
      HexRoundTrip(b % 16);
      assert (head + tail)[1] == HexDigit(b / 16) && (head + tail)[2] == HexDigit(b % 16);
    } else {
      EscapedByteShift(head, tail, k);
      PercentBytesRead(bytes[1..], rest, k - 1);
    }
  }

  /** The six-bit groups of a code point put back together give it back. */
  lemma SixBitGroups(n: nat)
    ensures n == (n / 64) * 64 + n % 64
    ensures n / 64 == (n / 64 / 64) * 64 + (n / 64) % 64
    ensures n / 64 / 64 == (n / 64 / 64 / 64) * 64 + (n / 64 / 64) % 64
  {
  }

  /** The escapes of a character read back as its UTF-8 bytes. */
  lemma EncodedCharBytes(c: char, rest: string)
    requires !Unreserved(c)
    ensures forall k :: 0 <= k < |Utf8(c)| ==> EscapedByte(EncodeChar(c) + rest, k) == Some(Utf8(c)[k])
  {
    forall k | 0 <= k < |Utf8(c)|
      ensures EscapedByte(EncodeChar(c) + rest, k) == Some(Utf8(c)[k])
    {
      PercentBytesRead(Utf8(c), rest, k);
    }
  }

  /** An escaped character decodes back to itself, whatever follows it. */
  lemma DecodeEncodedChar(c: char, rest: string)
    requires !Unreserved(c)
    ensures DecodeEscapedChar(EncodeChar(c) + rest) == Some((c, |EncodeChar(c)|))
  {
    EncodedCharBytes(c, rest);
    var n := c as int;
    if n < 0x80 {
      DecodeOneByte(c, EncodeChar(c) + rest);
    } else if n < 0x800 {
      DecodeTwoBytes(c, EncodeChar(c) + rest);
    } else if n < 0x10000 {
      DecodeThreeBytes(c, EncodeChar(c) + rest);
    } else {
      DecodeFourBytes(c, EncodeChar(c) + rest);
    }
  }

  lemma DecodeOneByte(c: char, s: string)
    requires c as int < 0x80
    requires EscapedByte(s, 0) == Some(c as int)
    ensures DecodeEscapedChar(s) == Some((c, 3))
  {
  }

  lemma DecodeTwoBytes(c: char, s: string)
    requires 0x80 <= c as int < 0x800
    requires EscapedByte(s, 0) == Some(0xC0 + c as int / 64)
    requires EscapedByte(s, 1) == Some(0x80 + c as int % 64)
    ensures DecodeEscapedChar(s) == Some((c, 6))
  {
    SixBitGroups(c as int);
  }

  lemma DecodeThreeBytes(c: char, s: string)
    requires 0x800 <= c as int < 0x10000
    requires EscapedByte(s, 0) == Some(0xE0 + c as int / 64 / 64)
    requires EscapedByte(s, 1) == Some(0x80 + c as int / 64 % 64)
    requires EscapedByte(s, 2) == Some(0x80 + c as int % 64)
    ensures DecodeEscapedChar(s) == Some((c, 9))
  {
    SixBitGroups(c as int);
  }

  lemma DecodeFourBytes(c: char, s: string)
    requires 0x10000 <= c as int
    requires EscapedByte(s, 0) == Some(0xF0 + c as int / 64 / 64 / 64)
    requires EscapedByte(s, 1) == Some(0x80 + c as int / 64 / 64 % 64)
    requires EscapedByte(s, 2) == Some(0x80 + c as int / 64 % 64)
    requires EscapedByte(s, 3) == Some(0x80 + c as int % 64)
    ensures DecodeEscapedChar(s) == Some((c, 12))
  {
    SixBitGroups(c as int);
  }

  /** `decodeURIComponent` undoes `encodeURIComponent`. */
  lemma {:induction false} DecodeEncode(s: string)
    ensures DecodeURIComponent(EncodeURIComponent(s)) == Some(s)
  {
    if s != [] {
      DecodeEncode(s[1..]);
      var head, tail := EncodeChar(s[0]), EncodeURIComponent(s[1..]);
      assert EncodeURIComponent(s) == head + tail;
      assert s == [s[0]] + s[1..];
      if Unreserved(s[0]) {
        assert (head + tail)[1..] == tail;
      } else {
        DecodeEncodedChar(s[0], tail);
        assert (head + tail)[0] == '%';
        assert (head + tail)[|head|..] == tail;
      }
    }
  }

  // ---------------------------------------------------------------------
  // Array.prototype.join and its inverse

  /** `parts.join(sep)`. */
  function Join(parts: seq<string>, sep: char): string
  {
    if parts == [] then []
    else if |parts| == 1 then parts[0]
    else parts[0] + [sep] + Join(parts[1..], sep)
  }

  /** `s.split(sep)`: the pieces between separators, at least one. */
  function Split(s: string, sep: char): (parts: seq<string>)
    ensures |parts| >= 1
    decreases |s|
  {
    if sep in s then
      var i := FirstIndex(s, sep);
      [s[..i]] + Split(s[i + 1..], sep)
    else [s]
  }

  /** Splitting stops at the first separator. */
  lemma SplitAtFirst(first: string, sep: char, others: string)
    requires sep !in first
    ensures Split(first + [sep] + others, sep) == [first] + Split(others, sep)
  {
    var s := first + [sep] + others;
    FirstIndexAfter(first, sep, others);
    assert s[..|first|] == first;
    assert s[|first| + 1..] == others;
  }

  /** Splitting a joined list gives the list back when no part holds the
      separator. */
  lemma {:induction false} SplitJoin(parts: seq<string>, sep: char)
    requires |parts| >= 1
    requires forall i :: 0 <= i < |parts| ==> sep !in parts[i]
    ensures Split(Join(parts, sep), sep) == parts
  {
    if |parts| > 1 {
      SplitJoin(parts[1..], sep);
      SplitAtFirst(parts[0], sep, Join(parts[1..], sep));
      assert parts == [parts[0]] + parts[1..];
    }
  }

  // ---------------------------------------------------------------------
  // The form

  const ResultsPrefix := "/resultados?q="
  const TribunaisParam := "&tribunais="

  /** The results page address for a query and a selection. */
  function ResultsUrl(searchQuery: string, selectedTribunals: seq<string>): string
  {
    ResultsPrefix + EncodeURIComponent(searchQuery) + TribunaisParam + Join(selectedTribunals, ',')
  }

  /** Reads a results address back: the query up to the first `&`,
      percent-decoded, and the tribunal list split at commas. */
  function ParseResultsUrl(url: string): Option<(string, seq<string>)>
  {
    if |url| < |ResultsPrefix| || url[..|ResultsPrefix|] != ResultsPrefix then None
    else ParseParameters(url[|ResultsPrefix|..])
  }

  /** The part of `ParseResultsUrl` after `?q=`. */
  function ParseParameters(rest: string): Option<(string, seq<string>)>
  {
    if '&' !in rest then None
    else
      var i := FirstIndex(rest, '&');
      var tail := rest[i..];
      if |tail| < |TribunaisParam| || tail[..|TribunaisParam|] != TribunaisParam then None
      else
        match DecodeURIComponent(rest[..i])
        case Some(q) => Some((q, Split(tail[|TribunaisParam|..], ',')))
        case None => None
  }

  lemma ParametersRoundTrip(enc: string, joined: string)
    requires '&' !in enc
    requires DecodeURIComponent(enc).Some?
    ensures ParseParameters(enc + TribunaisParam + joined) ==
      Some((DecodeURIComponent(enc).value, Split(joined, ',')))
  {
    var rest := enc + TribunaisParam + joined;
    var after := TribunaisParam[1..] + joined;
    assert rest == enc + ['&'] + after;
    FirstIndexAfter(enc, '&', after);
    assert rest[..|enc|] == enc;
    assert rest[|enc|..] == TribunaisParam + joined;
    assert (TribunaisParam + joined)[..|TribunaisParam|] == TribunaisParam;
    assert (TribunaisParam + joined)[|TribunaisParam|..] == joined;
  }

  /** The address carries the untrimmed query and the selection in order:
      reading it back gives both, for any selection of comma-free ids. */
  lemma ResultsUrlRoundTrip(searchQuery: string, selectedTribunals: seq<string>)
    requires selectedTribunals != []
    requires forall i :: 0 <= i < |selectedTribunals| ==> ',' !in selectedTribunals[i]
    ensures ParseResultsUrl(ResultsUrl(searchQuery, selectedTribunals)) == Some((searchQuery, selectedTribunals))
  {
    var enc, joined := EncodeURIComponent(searchQuery), Join(selectedTribunals, ',');
    var rest := enc + TribunaisParam + joined;
    assert ResultsUrl(searchQuery, selectedTribunals) == ResultsPrefix + rest;
    assert (ResultsPrefix + rest)[..|ResultsPrefix|] == ResultsPrefix;
    assert (ResultsPrefix + rest)[|ResultsPrefix|..] == rest;
    DecodeEncode(searchQuery);
    ParametersRoundTrip(enc, joined);
    SplitJoin(selectedTribunals, ',');
  }

  /** What submitting the form does: a warning, or navigation. */
  datatype SearchOutcome = Rejected(message: string) | Navigate(url: string)

  /** `handleSearch`: the blank-query rule first, then the empty-selection
      rule, then navigation. */
  function HandleSearch(searchQuery: string, selectedTribunals: seq<string>): (outcome: SearchOutcome)
    ensures outcome == Rejected(QueryRequired) <==> Trim(searchQuery) == []
    ensures outcome == Rejected(TribunalRequired) <==> Trim(searchQuery) != [] && selectedTribunals == []
    ensures outcome.Navigate? <==> Trim(searchQuery) != [] && selectedTribunals != []
    ensures outcome.Navigate? ==> outcome.url == ResultsUrl(searchQuery, selectedTribunals)
  {
    if Trim(searchQuery) == [] then Rejected(QueryRequired)
    else if selectedTribunals == [] then Rejected(TribunalRequired)
    else Navigate(ResultsUrl(searchQuery, selectedTribunals))
  }

  /** Submitting navigates exactly when the query has a non-blank character
      and some tribunal is selected, and the results page then reads back
      the query as typed and the selection in order. */
  lemma SubmitReadsBack(searchQuery: string, selectedTribunals: seq<string>)
    requires forall i :: 0 <= i < |selectedTribunals| ==> ',' !in selectedTribunals[i]
    ensures HandleSearch(searchQuery, selectedTribunals).Navigate? <==>
      (exists k :: 0 <= k < |searchQuery| && !IsWhitespace(searchQuery[k])) && selectedTribunals != []
    ensures HandleSearch(searchQuery, selectedTribunals).Navigate? ==>
      ParseResultsUrl(HandleSearch(searchQuery, selectedTribunals).url) == Some((searchQuery, selectedTribunals))
  {
    BlankIffAllWhitespace(searchQuery);
    if selectedTribunals != [] {
      ResultsUrlRoundTrip(searchQuery, selectedTribunals);
    }
  }
}
