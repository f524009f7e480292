/** IPv4 addresses and their dotted-quad text form, as accepted by
    `socket.inet_pton(AF_INET, s)`: exactly four dot-separated decimal
    fields, each one to three digits, without a leading zero, at most 255. */
module Inet {
  import opened Wrappers
  import opened Text

  type Octet = x: int | 0 <= x < 256

  datatype IPv4Address = IPv4Address(o0: Octet, o1: Octet, o2: Octet, o3: Octet)

  /** One field of a dotted quad as `inet_pton` accepts it. */
  predicate IsOctetText(s: string) {
    Canonical(s) && |s| <= 3 && DigitsValue(s) <= 255
  }

  function OctetOf(s: string): Octet
    requires IsOctetText(s)
  {
    DigitsValue(s)
  }

  /** The address a dotted-quad literal denotes, or None when `inet_pton`
      would reject the text. */
  function ParseIPv4(s: string): Option<IPv4Address> {
    var p := Split(s, '.');
    if |p| == 4 && IsOctetText(p[0]) && IsOctetText(p[1]) && IsOctetText(p[2]) && IsOctetText(p[3])
    then Some(IPv4Address(OctetOf(p[0]), OctetOf(p[1]), OctetOf(p[2]), OctetOf(p[3])))
    else None
  }

  predicate IsIPv4Literal(s: string) {
    ParseIPv4(s).Some?
  }

  /** The dotted-quad spelling of an address. */
  function FormatIPv4(a: IPv4Address): string {
    Join([NatToString(a.o0), NatToString(a.o1), NatToString(a.o2), NatToString(a.o3)], '.')
  }

  lemma OctetTextRoundTrip(o: Octet)
    ensures IsOctetText(NatToString(o)) && OctetOf(NatToString(o)) == o
    ensures '.' !in NatToString(o)
  {
    NatToStringRoundTrip(o);
    NatToStringShort(o);
  }

  /** Formatting an address yields a literal that parses back to it. */
  lemma ParseFormatIPv4(a: IPv4Address)
    ensures ParseIPv4(FormatIPv4(a)) == Some(a)
  {
    var parts := [NatToString(a.o0), NatToString(a.o1), NatToString(a.o2), NatToString(a.o3)];
    OctetTextRoundTrip(a.o0);
    OctetTextRoundTrip(a.o1);
    OctetTextRoundTrip(a.o2);
    OctetTextRoundTrip(a.o3);
    JoinSplit(parts, '.');
  }

  /** Every text `inet_pton` accepts is the dotted-quad spelling of the
      address it denotes: the literal form is canonical. */
  lemma FormatParseIPv4(s: string)
    requires IsIPv4Literal(s)
    ensures FormatIPv4(ParseIPv4(s).value) == s
  {
    var p := Split(s, '.');
    CanonicalRoundTrip(p[0]);
    CanonicalRoundTrip(p[1]);
    CanonicalRoundTrip(p[2]);
    CanonicalRoundTrip(p[3]);
    SplitJoin(s, '.');
    assert p == [p[0], p[1], p[2], p[3]];
  }

  /** Python's `sep.join(parts)`. */
  function Join(parts: seq<string>, sep: char): string
    requires |parts| >= 1
  {
    if |parts| == 1 then parts[0] else parts[0] + [sep] + Join(parts[1..], sep)
  }

  /** Splitting a join of separator-free pieces gives back the pieces. */
  lemma {:induction false} JoinSplit(parts: seq<string>, sep: char)
    requires |parts| >= 1
    requires forall i :: 0 <= i < |parts| ==> sep !in parts[i]
    ensures Split(Join(parts, sep), sep) == parts
  {
    if |parts| == 1 {
      SplitNoSep(parts[0], sep);
    } else {
      JoinSplit(parts[1..], sep);
      SplitAtFirst(parts[0], sep, Join(parts[1..], sep));
      assert [parts[0]] + parts[1..] == parts;
    }
  }

  /** Joining the pieces of a split with the same separator gives back the
      original string. */
  lemma {:induction false} SplitJoin(s: string, sep: char)
    ensures Join(Split(s, sep), sep) == s
  {
    if |s| > 0 {
      var rest := Split(s[1..], sep);
      SplitJoin(s[1..], sep);
      if s[0] == sep {
        assert Split(s, sep) == [""] + rest;
        assert ([""] + rest)[1..] == rest;
        assert [s[0]] + s[1..] == s;
      } else {
        var parts := Split(s, sep);
        assert parts == [[s[0]] + rest[0]] + rest[1..];
        if |rest| == 1 {
          assert Join(rest, sep) == rest[0];
          assert [s[0]] + s[1..] == s;
        } else {
          assert parts[1..] == rest[1..];
          assert Join(rest, sep) == rest[0] + [sep] + Join(rest[1..], sep);
          assert [s[0]] + s[1..] == s;
        }
      }
    }
  }
}
