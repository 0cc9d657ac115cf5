/** The parts of Go's strings and strconv packages that the parsers use. */
module Text {
  import opened Wrappers
  import opened Seqs

  /** unicode.IsSpace. */
  predicate IsSpace(c: char)
  {
    || '\t' <= c <= '\r' || c == ' ' || c == '\U{85}' || c == '\U{A0}' || c == '\U{1680}'
    || '\U{2000}' <= c <= '\U{200A}' || c == '\U{2028}' || c == '\U{2029}' || c == '\U{202F}'
    || c == '\U{205F}' || c == '\U{3000}'
  }

  function TrimLeft(s: string): string
  {
    if s != "" && IsSpace(s[0]) then TrimLeft(s[1..]) else s
  }

  function TrimRight(s: string): (t: string)
    ensures |t| <= |s| && t == s[..|t|]
    ensures t != "" ==> !IsSpace(t[|t| - 1])
  {
    if s != "" && IsSpace(s[|s| - 1]) then TrimRight(s[..|s| - 1]) else s
  }

  /** strings.TrimSpace. */
  function TrimSpace(s: string): string
  {
    TrimRight(TrimLeft(s))
  }

  predicate Trimmed(s: string)
  {
    s != "" ==> !IsSpace(s[0]) && !IsSpace(s[|s| - 1])
  }

  lemma {:induction false} TrimLeftStarts(s: string)
    ensures TrimLeft(s) != "" ==> !IsSpace(TrimLeft(s)[0])
    ensures forall c :: c in TrimLeft(s) ==> c in s
  {
    if s == "" || !IsSpace(s[0]) {
    } else {
      TrimLeftStarts(s[1..]);
    }
  }

  lemma TrimSpaceTrims(s: string)
    ensures Trimmed(TrimSpace(s))
    ensures forall c :: c in TrimSpace(s) ==> c in s
  {
    TrimLeftStarts(s);
    var l, t := TrimLeft(s), TrimSpace(s);
    assert t != "" ==> t[0] == l[0];
  }

  lemma TrimmedStays(s: string)
    requires Trimmed(s)
    ensures TrimSpace(s) == s
  {
  }

  predicate AllSpace(s: string) { forall c :: c in s ==> IsSpace(c) }

  lemma {:induction false} LeftIsSpace(s: string) returns (a: string)
    ensures s == a + TrimLeft(s) && AllSpace(a)
  {
    if s == "" || !IsSpace(s[0]) {
      a := "";
    } else {
      var rest := LeftIsSpace(s[1..]);
      a := [s[0]] + rest;
      assert s == [s[0]] + s[1..];
    }
  }

  lemma {:induction false} RightIsSpace(s: string) returns (b: string)
    ensures s == TrimRight(s) + b && AllSpace(b)
  {
    if s == "" || !IsSpace(s[|s| - 1]) {
      b := "";
    } else {
      var rest := RightIsSpace(s[..|s| - 1]);
      b := rest + [s[|s| - 1]];
      assert s == s[..|s| - 1] + [s[|s| - 1]];
    }
  }

  /** TrimSpace takes off nothing but white space, and leaves none at the ends. */
  lemma TrimSpaceTakesSpace(s: string) returns (a: string, b: string)
    ensures s == a + TrimSpace(s) + b && AllSpace(a) && AllSpace(b) && Trimmed(TrimSpace(s))
  {
    hide TrimLeft, TrimRight, Trimmed;
    TrimSpaceTrims(s);
    a := LeftIsSpace(s);
    b := RightIsSpace(TrimLeft(s));
    assert a + TrimSpace(s) + b == a + (TrimSpace(s) + b);
  }

  /** unicode.ToLower on the letters whose lower case is ASCII. Other letters stay as they
      are: lowered text is only ever compared with ASCII words. */
  function LowerChar(c: char): char
  {
    if 'A' <= c <= 'Z' then (c as int + 32) as char
    else if c == '\U{130}' then 'i'
    else if c == '\U{212A}' then 'k'
    else c
  }

  function ToLower(s: string): (t: string)
    ensures |t| == |s|
    ensures forall i :: 0 <= i < |s| ==> t[i] == LowerChar(s[i])
  {
    seq(|s|, i requires 0 <= i < |s| => LowerChar(s[i]))
  }

  /** The two characters are equal or the two cases of one ASCII letter; the dotted capital I
      and the Kelvin sign count as capitals of i and k. */
  predicate SameLetter(c: char, d: char)
  {
    || c == d
    || ('A' <= c <= 'Z' && d as int == c as int + 32)
    || ('A' <= d <= 'Z' && c as int == d as int + 32)
    || (c == '\U{130}' && d == 'i') || (c == '\U{212A}' && d == 'k')
  }

  predicate SameLetters(s: string, t: string)
  {
    |s| == |t| && forall i :: 0 <= i < |s| ==> SameLetter(s[i], t[i])
  }

  /** A text of ASCII characters without capitals. */
  predicate IsWord(w: string)
  {
    forall c :: c in w ==> c < '\U{80}' && !('A' <= c <= 'Z')
  }

  /** Lowered text is a given word exactly when the text is that word up to the case of its
      letters. */
  lemma LowerIs(s: string, w: string)
    requires IsWord(w)
    ensures ToLower(s) == w <==> SameLetters(s, w)
  {
    if ToLower(s) == w {
      forall i | 0 <= i < |s|
        ensures SameLetter(s[i], w[i])
      {
        assert w[i] == LowerChar(s[i]) && w[i] in w;
      }
    }
    if SameLetters(s, w) {
      forall i | 0 <= i < |s|
        ensures LowerChar(s[i]) == w[i]
      {
        assert w[i] in w && SameLetter(s[i], w[i]);
      }
    }
  }

  predicate IsDigit(c: char) { '0' <= c <= '9' }

  predicate IsHex(c: char) { IsDigit(c) || 'a' <= c <= 'f' || 'A' <= c <= 'F' }

  predicate AllDigits(s: string) { forall c :: c in s ==> IsDigit(c) }

  function DigitOf(n: nat): (c: char)
    requires n < 10
    ensures IsDigit(c) && c as int - '0' as int == n
  {
    ('0' as int + n) as char
  }

  /** The number a digit text stands for. */
  function Value(s: string): nat
    requires AllDigits(s)
  {
    if s == "" then 0
    else
      assert s[|s| - 1] in s;
      10 * Value(s[..|s| - 1]) + (s[|s| - 1] as int - '0' as int)
  }

  /** What strconv.Atoi followed by the range check 1..65535 makes of a port text. */
  function ParsePort(s: string): Option<nat>
    requires AllDigits(s)
  {
    if s != "" && 1 <= Value(s) <= 65535 then Some(Value(s)) else None
  }

  function Decimal(n: nat): (s: string)
    ensures AllDigits(s) && s != ""
  {
    if n < 10 then [DigitOf(n)] else Decimal(n / 10) + [DigitOf(n % 10)]
  }

  lemma {:induction false} ValueOfDecimal(n: nat)
    ensures Value(Decimal(n)) == n
  {
    var s := Decimal(n);
    if n < 10 {
      assert s[..0] == "";
    } else {
      ValueOfDecimal(n / 10);
      assert s[..|s| - 1] == Decimal(n / 10);
    }
  }

  lemma {:induction false} LeadingZero(s: string)
    requires AllDigits(s)
    ensures Value("0" + s) == Value(s)
  {
    var z := "0" + s;
    if s == "" {
      assert z[..0] == "";
    } else {
      assert z[..|z| - 1] == "0" + s[..|s| - 1];
      LeadingZero(s[..|s| - 1]);
    }
  }

  // -------------------------------------------------------------------------
  // Comma-separated ALPN lists
  // -------------------------------------------------------------------------

  function TrimAll(parts: seq<string>): (r: seq<string>)
    ensures |r| == |parts|
    ensures forall i :: 0 <= i < |parts| ==> r[i] == TrimSpace(parts[i])
  {
    seq(|parts|, i requires 0 <= i < |parts| => TrimSpace(parts[i]))
  }

  /** The ALPN list read from a query value; [] stands for Go's nil slice. */
  function Alpn(raw: string): seq<string>
  {
    var text := TrimSpace(raw);
    if text == "" then [] else TrimAll(Split(text, ','))
  }

  /** Exactly the lists Alpn can return. */
  predicate IsAlpn(ps: seq<string>)
  {
    && (forall p :: p in ps ==> Trimmed(p) && ',' !in p)
    && ps != [""]
  }

  lemma AlpnShape(raw: string)
    ensures IsAlpn(Alpn(raw))
  {
    var text := TrimSpace(raw);
    TrimSpaceTrims(raw);
    if text != "" {
      var parts := Split(text, ',');
      forall p | p in Alpn(raw)
        ensures Trimmed(p) && ',' !in p
      {
        var i :| 0 <= i < |parts| && p == TrimSpace(parts[i]);
        TrimSpaceTrims(parts[i]);
      }
      if |parts| == 1 {
        JoinSplit(text, ',');
        TrimmedStays(text);
      }
    }
  }

  lemma {:induction false} JoinTrimmed(ps: seq<string>)
    requires ps != [] && IsAlpn(ps)
    ensures var j := Join(ps, ','); j != "" && Trimmed(j)
  {
    var j := Join(ps, ',');
    assert ps[0] in ps;
    if |ps| == 1 {
    } else {
      var tail := ps[1..];
      assert ps[0] != "" ==> j[0] == ps[0][0];
      if tail == [""] {
        assert Join(tail, ',') == tail[0] == "";
        assert j == ps[0] + [','];
      } else {
        assert forall p :: p in tail ==> p in ps;
        JoinTrimmed(tail);
        assert j[|j| - 1] == Join(tail, ',')[|Join(tail, ',')| - 1];
      }
    }
  }

  /** Every such list is its own normal form: written with commas and read again it is
      unchanged. */
  lemma AlpnReadsBack(ps: seq<string>)
    requires IsAlpn(ps)
    ensures Alpn(Join(ps, ',')) == ps
  {
    if ps != [] {
      JoinTrimmed(ps);
      TrimmedStays(Join(ps, ','));
      SplitJoin(ps, ',');
      forall i | 0 <= i < |ps|
        ensures TrimSpace(ps[i]) == ps[i]
      {
        assert ps[i] in ps;
        TrimmedStays(ps[i]);
      }
      assert TrimAll(ps) == ps;
    }
  }

  lemma AlpnIsNormal(raw: string)
    ensures Alpn(Join(Alpn(raw), ',')) == Alpn(raw)
  {
    AlpnShape(raw);
    AlpnReadsBack(Alpn(raw));
  }

  /** The splitting and in-place trimming all three parser functions share. */
  method SplitAlpn(raw: string) returns (parts: seq<string>)
    ensures parts == Alpn(raw)
  {
    parts := [];
    var text := TrimSpace(raw);
    if text != "" {
      var pieces := Split(text, ',');
      parts := pieces;
      for i := 0 to |parts|
        invariant |parts| == |pieces|
        invariant forall k :: 0 <= k < i ==> parts[k] == TrimSpace(pieces[k])
        invariant forall k :: i <= k < |parts| ==> parts[k] == pieces[k]
      {
        parts := parts[i := TrimSpace(parts[i])];
      }
    }
  }
}
