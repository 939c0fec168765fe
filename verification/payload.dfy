/**
 The data strings carried by the inline buttons: `accept_duel|<initiator>|<key>`,
 `reject_duel|<initiator>` and `shoot|<key>`, with the numbers written by `%d`.
 */
module Payload {
  import opened Options
  import opened Decimal

  datatype Payload =
    | AcceptDuel(initiator: int, key: int)
    | RejectDuel(initiator: int)
    | ShootAt(key: int)

  const Sep: char := '|'
  const AcceptTag: string := "accept_duel|"
  const RejectTag: string := "reject_duel|"
  const ShootTag: string := "shoot|"

  predicate HasPrefix(s: string, p: string) {
    |p| <= |s| && s[..|p|] == p
  }

  function Encode(p: Payload): string {
    match p
    case AcceptDuel(i, k) => AcceptTag + (IntToString(i) + [Sep] + IntToString(k))
    case RejectDuel(i) => RejectTag + IntToString(i)
    case ShootAt(k) => ShootTag + IntToString(k)
  }

  /** Splits at the first separator. */
  function SplitAtSep(s: string): (r: Option<(string, string)>)
    ensures r.Some? <==> Sep in s
    ensures r.Some? ==> s == r.value.0 + [Sep] + r.value.1 && Sep !in r.value.0
  {
    if |s| == 0 then None
    else if s[0] == Sep then Some(([], s[1..]))
    else match SplitAtSep(s[1..])
      case None => None
      case Some((a, b)) => Some(([s[0]] + a, b))
  }

  lemma {:induction false} SplitJoin(a: string, b: string)
    requires Sep !in a
    ensures SplitAtSep(a + [Sep] + b) == Some((a, b))
    decreases |a|
  {
    var s := a + [Sep] + b;
    if |a| == 0 {
      assert s == [Sep] + b;
      assert s[1..] == b;
    } else {
      assert s[0] == a[0] && a[0] != Sep;
      assert s[1..] == a[1..] + [Sep] + b;
      SplitJoin(a[1..], b);
      assert [a[0]] + a[1..] == a;
    }
  }

  /** The part of an accept payload after its tag: two numbers around a separator. */
  function DecodeAccept(rest: string): (r: Option<Payload>)
    ensures r.Some? ==> r.value.AcceptDuel?
  {
    match SplitAtSep(rest)
    case None => None
    case Some((a, b)) =>
      if ParseInt(a).Some? && ParseInt(b).Some? then Some(AcceptDuel(ParseInt(a).value, ParseInt(b).value))
      else None
  }

  function Decode(s: string): Option<Payload> {
    if HasPrefix(s, AcceptTag) then DecodeAccept(s[|AcceptTag|..])
    else if HasPrefix(s, RejectTag) then
      var n := ParseInt(s[|RejectTag|..]);
      if n.Some? then Some(RejectDuel(n.value)) else None
    else if HasPrefix(s, ShootTag) then
      var n := ParseInt(s[|ShootTag|..]);
      if n.Some? then Some(ShootAt(n.value)) else None
    else None
  }

  lemma NoSepInNumber(i: int)
    ensures Sep !in IntToString(i)
  {
  }

  /** Every encoding decodes to the payload it encodes. */
  lemma DecodeEncode(p: Payload)
    ensures Decode(Encode(p)) == Some(p)
  {
    var s := Encode(p);
    match p
    case AcceptDuel(i, k) =>
      assert HasPrefix(s, AcceptTag);
      assert s[|AcceptTag|..] == IntToString(i) + [Sep] + IntToString(k);
      NoSepInNumber(i);
      SplitJoin(IntToString(i), IntToString(k));
      ParseIntIff(IntToString(i), i);
      ParseIntIff(IntToString(k), k);
    case RejectDuel(i) =>
      assert !HasPrefix(s, AcceptTag) by { assert s[0] != AcceptTag[0]; }
      assert HasPrefix(s, RejectTag);
      assert s[|RejectTag|..] == IntToString(i);
      ParseIntIff(IntToString(i), i);
    case ShootAt(k) =>
      assert !HasPrefix(s, AcceptTag) by { assert s[0] != AcceptTag[0]; }
      assert !HasPrefix(s, RejectTag) by { assert s[0] != RejectTag[0]; }
      assert HasPrefix(s, ShootTag);
      assert s[|ShootTag|..] == IntToString(k);
      ParseIntIff(IntToString(k), k);
  }

  lemma DecodeAcceptExact(rest: string)
    requires DecodeAccept(rest).Some?
    ensures var p := DecodeAccept(rest).value;
      IntToString(p.initiator) + [Sep] + IntToString(p.key) == rest
  {
    var (a, b) := SplitAtSep(rest).value;
    ParsedIsCanonical(a);
    ParsedIsCanonical(b);
  }

  lemma EncodeDecodeAccept(s: string)
    requires HasPrefix(s, AcceptTag) && Decode(s).Some?
    ensures Encode(Decode(s).value) == s
  {
    var rest := s[|AcceptTag|..];
    DecodeAcceptExact(rest);
    assert s == AcceptTag + rest;
  }

  lemma EncodeDecodeTagged(s: string, tag: string)
    requires tag == RejectTag || tag == ShootTag
    requires HasPrefix(s, tag) && ParseInt(s[|tag|..]).Some?
    ensures tag + IntToString(ParseInt(s[|tag|..]).value) == s
  {
    var rest := s[|tag|..];
    ParseIntIff(rest, ParseInt(rest).value);
    assert s == tag + rest;
  }

  /** Whatever decodes is the encoding of its result: no other string is accepted. */
  lemma EncodeDecode(s: string)
    ensures Decode(s).Some? ==> Encode(Decode(s).value) == s
  {
    if Decode(s).Some? {
      if HasPrefix(s, AcceptTag) {
        EncodeDecodeAccept(s);
      } else if HasPrefix(s, RejectTag) {
        EncodeDecodeTagged(s, RejectTag);
      } else {
        EncodeDecodeTagged(s, ShootTag);
      }
    }
  }

  /** Decoding accepts exactly the encodings, and returns the payload that was encoded. */
  lemma DecodeIff(s: string, p: Payload)
    ensures Decode(s) == Some(p) <==> Encode(p) == s
  {
    DecodeEncode(p);
    EncodeDecode(s);
  }
}
