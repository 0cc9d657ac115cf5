/** Percent-encoded user-info (sections 2.1 and 3.2.1 of RFC 3986) as net/url decodes it,
    and the password the Hysteria2 parser makes of the two halves. */
module UserInfo {
  import opened Wrappers
  import opened Seqs

  type Octet = x: int | 0 <= x < 256
  const PERCENT: Octet := 37
  const COLON: Octet := 58

  function HexValue(o: Octet): Option<int>
  {
    if 48 <= o <= 57 then Some(o - 48)
    else if 65 <= o <= 70 then Some(o - 55)
    else if 97 <= o <= 102 then Some(o - 87)
    else None
  }

  /** The octet that a "%XY" triplet at the start of s stands for, if there is one. */
  function Triplet(s: seq<Octet>): Option<Octet>
    requires s != []
  {
    if |s| < 3 || HexValue(s[1]).None? || HexValue(s[2]).None? then None
    else Some(16 * HexValue(s[1]).value + HexValue(s[2]).value)
  }

  /** Percent-decoding; None when a '%' does not start a triplet. */
  function Unescape(s: seq<Octet>): Option<seq<Octet>>
    decreases |s|
  {
    if s == [] then Some([])
    else if s[0] != PERCENT then
      var tail := Unescape(s[1..]);
      if tail.None? then None else Some([s[0]] + tail.value)
    else if Triplet(s).None? then None
    else
      var tail := Unescape(s[3..]);
      if tail.None? then None else Some([Triplet(s).value] + tail.value)
  }

  datatype Halves = Halves(username: seq<Octet>, password: Option<seq<Octet>>)

  /** What net/url makes of user-info that has passed its check of characters: it cuts at the
      first colon and decodes each half. (The check, validUserinfo, refuses some texts before;
      what is said here of every text holds of those that pass.) */
  function ReadUserInfo(raw: seq<Octet>): Option<Halves>
  {
    var i := Cut(raw, COLON);
    var name := Unescape(raw[..i]);
    if i == |raw| then
      if name.None? then None else Some(Halves(name.value, None))
    else
      var pw := Unescape(raw[i + 1..]);
      if name.None? || pw.None? then None else Some(Halves(name.value, Some(pw.value)))
  }

  /** The octets of the halves joined again, as the Hysteria2 parser joins them. */
  function Whole(h: Halves): seq<Octet>
  {
    Rejoin(h.username, COLON, h.password)
  }

  function Both(a: Option<seq<Octet>>, b: Option<seq<Octet>>): Option<seq<Octet>>
  {
    if a.None? || b.None? then None else Some(a.value + [COLON] + b.value)
  }

  /** Putting a decoded octet in front commutes with joining at the colon. */
  lemma BothCons(x: Octet, a: Option<seq<Octet>>, b: Option<seq<Octet>>)
    ensures Both(if a.None? then None else Some([x] + a.value), b)
         == (var j := Both(a, b); if j.None? then None else Some([x] + j.value))
  {
    if a.Some? && b.Some? {
      assert ([x] + a.value) + [COLON] + b.value == [x] + (a.value + [COLON] + b.value);
    }
  }

  lemma {:induction false} UnescapeAcrossColon(a: seq<Octet>, b: seq<Octet>)
    requires COLON !in a
    ensures Unescape(a + [COLON] + b) == Both(Unescape(a), Unescape(b))
    decreases |a|
  {
    var s := a + [COLON] + b;
    if a == [] {
      assert s == [COLON] + b && s[1..] == b;
    } else if a[0] != PERCENT {
      assert s[1..] == a[1..] + [COLON] + b;
      UnescapeAcrossColon(a[1..], b);
      BothCons(a[0], Unescape(a[1..]), Unescape(b));
    } else if |a| >= 3 {
      assert s[3..] == a[3..] + [COLON] + b;
      UnescapeAcrossColon(a[3..], b);
      assert Triplet(s) == Triplet(a);
      if Triplet(a).Some? {
        BothCons(Triplet(a).value, Unescape(a[3..]), Unescape(b));
      }
    } else {
      assert s[|a|] == COLON && HexValue(COLON).None?;
    }
  }

  /** Rejoining loses nothing: it is the percent-decoding of the whole user-info, and the
      two readings are refused for the same texts. */
  lemma RejoinIsWhole(raw: seq<Octet>)
    ensures ReadUserInfo(raw).Some? <==> Unescape(raw).Some?
    ensures ReadUserInfo(raw).Some? ==> Whole(ReadUserInfo(raw).value) == Unescape(raw).value
  {
    var i := Cut(raw, COLON);
    if i == |raw| {
      assert raw[..i] == raw;
    } else {
      assert raw == raw[..i] + [COLON] + raw[i + 1..];
      UnescapeAcrossColon(raw[..i], raw[i + 1..]);
    }
  }

  // -------------------------------------------------------------------------
  // Decoding inverts encoding
  // -------------------------------------------------------------------------

  /** How an octet is written: as itself, or as a triplet with capital or small digits. */
  datatype Spelling = Itself | Capitals | Smalls

  function HexDigit(n: nat, how: Spelling): Octet
    requires n < 16
  {
    if n < 10 then 48 + n else if how == Smalls then 87 + n else 55 + n
  }

  function Spell(o: Octet, how: Spelling): seq<Octet>
  {
    if how == Itself && o != PERCENT then [o] else [PERCENT, HexDigit(o / 16, how), HexDigit(o % 16, how)]
  }

  function Escape(s: seq<Octet>, how: seq<Spelling>): seq<Octet>
    requires |s| == |how|
  {
    if s == [] then [] else Spell(s[0], how[0]) + Escape(s[1..], how[1..])
  }

  /** Every text comes back from every way to write it. */
  lemma {:induction false} UnescapeInvertsEscape(s: seq<Octet>, how: seq<Spelling>)
    requires |s| == |how|
    ensures Unescape(Escape(s, how)) == Some(s)
  {
    if s == [] {
    } else {
      UnescapeInvertsEscape(s[1..], how[1..]);
      SpellingReads(s[0], how[0], Escape(s[1..], how[1..]));
      assert s == [s[0]] + s[1..];
    }
  }

  lemma SpellingReads(o: Octet, how: Spelling, rest: seq<Octet>)
    requires Unescape(rest).Some?
    ensures Unescape(Spell(o, how) + rest) == Some([o] + Unescape(rest).value)
  {
    var t := Spell(o, how) + rest;
    if how == Itself && o != PERCENT {
      assert t[1..] == rest;
    } else {
      assert t[3..] == rest;
      assert HexValue(t[1]) == Some(o / 16) && HexValue(t[2]) == Some(o % 16);
    }
  }
}
