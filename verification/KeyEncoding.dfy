// The on-chain key of a contract: its UUID with the hyphens stripped.

module KeyEncoding {
  const UUID_LENGTH := 36
  const SYMBOL_LIMIT := 32

  /** Drops every hyphen, wherever it stands. */
  function ContractIdToSymbol(uuid: string): string {
    if uuid == "" then ""
    else if uuid[0] == '-' then ContractIdToSymbol(uuid[1..])
    else [uuid[0]] + ContractIdToSymbol(uuid[1..])
  }

  predicate IsHex(c: char) {
    '0' <= c <= '9' || 'a' <= c <= 'f' || 'A' <= c <= 'F'
  }

  predicate IsHyphenPosition(i: int) {
    i == 8 || i == 13 || i == 18 || i == 23
  }

  /** The 8-4-4-4-12 text form of section 4 of RFC 9562. */
  predicate IsUuid(s: string) {
    && |s| == UUID_LENGTH
    && forall i | 0 <= i < |s| :: if IsHyphenPosition(i) then s[i] == '-' else IsHex(s[i])
  }

  predicate IsSymbol(s: string) {
    && |s| <= SYMBOL_LIMIT
    && forall c | c in s :: 'a' <= c <= 'z' || 'A' <= c <= 'Z' || '0' <= c <= '9' || c == '_'
  }

  /** Puts the hyphens of a UUID back. */
  function Hyphenate(symbol: string): string
    requires |symbol| == SYMBOL_LIMIT
  {
    symbol[..8] + "-" + symbol[8..12] + "-" + symbol[12..16] + "-" + symbol[16..20] + "-" + symbol[20..]
  }

  lemma StripHead(c: char, rest: string)
    ensures ContractIdToSymbol([c] + rest) == (if c == '-' then "" else [c]) + ContractIdToSymbol(rest)
  {
    assert ([c] + rest)[1..] == rest;
  }

  lemma {:induction false} StripConcat(a: string, b: string)
    ensures ContractIdToSymbol(a + b) == ContractIdToSymbol(a) + ContractIdToSymbol(b)
  {
    hide ContractIdToSymbol;
    if a == "" {
      assert a + b == b && ContractIdToSymbol("") == "" by { StripEmpty(); }
    } else {
      var rest := a[1..];
      assert a == [a[0]] + rest && a + b == [a[0]] + (rest + b);
      StripHead(a[0], rest);
      StripHead(a[0], rest + b);
      StripConcat(rest, b);
    }
  }

  lemma StripEmpty()
    ensures ContractIdToSymbol("") == ""
  {
  }

  lemma {:induction false} StripNothing(s: string)
    requires '-' !in s
    ensures ContractIdToSymbol(s) == s
  {
    if s != "" {
      StripNothing(s[1..]);
    }
  }

  lemma StripGroup(group: string, rest: string)
    requires '-' !in group
    ensures ContractIdToSymbol(group + "-" + rest) == group + ContractIdToSymbol(rest)
  {
    StripNothing(group);
    assert group + "-" + rest == group + ("-" + rest);
    StripConcat(group, "-" + rest);
    assert ("-" + rest)[1..] == rest;
  }

  lemma StripUuid(s: string)
    requires IsUuid(s)
    ensures ContractIdToSymbol(s) == s[..8] + s[9..13] + s[14..18] + s[19..23] + s[24..]
  {
    assert s == s[..8] + "-" + s[9..];
    assert s[9..] == s[9..13] + "-" + s[14..];
    assert s[14..] == s[14..18] + "-" + s[19..];
    assert s[19..] == s[19..23] + "-" + s[24..];
    StripGroup(s[..8], s[9..]);
    StripGroup(s[9..13], s[14..]);
    StripGroup(s[14..18], s[19..]);
    StripGroup(s[19..23], s[24..]);
    StripNothing(s[24..]);
  }

  /** A UUID's key fits a Soroban Symbol exactly, and reinserting the hyphens undoes it. */
  lemma KeyRoundTrip(s: string)
    requires IsUuid(s)
    ensures |ContractIdToSymbol(s)| == SYMBOL_LIMIT && IsSymbol(ContractIdToSymbol(s))
    ensures Hyphenate(ContractIdToSymbol(s)) == s
  {
    StripUuid(s);
    var k := ContractIdToSymbol(s);
    assert k[..8] == s[..8] && k[8..12] == s[9..13] && k[12..16] == s[14..18] && k[16..20] == s[19..23];
    assert k[20..] == s[24..];
    forall i | 0 <= i < |k| ensures IsHex(k[i]) {
      var hyphens := if i < 8 then 0 else if i < 12 then 1 else if i < 16 then 2 else if i < 20 then 3 else 4;
      assert k[i] == s[i + hyphens];
    }
    assert s == s[..8] + "-" + s[9..13] + "-" + s[14..18] + "-" + s[19..23] + "-" + s[24..];
  }

  /** Two contracts never share an on-chain entry. */
  lemma KeyInjective(a: string, b: string)
    requires IsUuid(a) && IsUuid(b) && ContractIdToSymbol(a) == ContractIdToSymbol(b)
    ensures a == b
  {
    KeyRoundTrip(a);
    KeyRoundTrip(b);
  }
}
