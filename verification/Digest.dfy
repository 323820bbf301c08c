/**
 Identities: the length-prefixed digest of `journal.ts` and the batch id built from it.

 A SHA-256 value is the constructor `Sha256` applied to the text that was fed to the hash, which
 makes the hash injective by construction. What is left to prove is that the text determines the
 list of parts.
 */
module Digest {

  datatype Digest = Sha256(text: string)

  /** `String(n)` for a non-negative integer. */
  function Decimal(n: nat): (s: string)
    ensures |s| > 0
    ensures forall i :: 0 <= i < |s| ==> s[i] != ':'
  {
    if n < 10 then [DigitChar(n)] else Decimal(n / 10) + [DigitChar(n % 10)]
  }

  function DigitChar(d: nat): (c: char)
    requires d < 10
    ensures c != ':'
  {
    "0123456789"[d]
  }

  /** The text fed to the hash for a list of parts: each part behind its length and a colon. */
  function Frame(parts: seq<string>): string {
    if parts == [] then ""
    else Decimal(|parts[0]|) + ":" + parts[0] + Frame(parts[1..])
  }

  function DigestOf(parts: seq<string>): Digest {
    Sha256(Frame(parts))
  }

  /** The hash object of the source: text is fed in pieces. */
  class Hash {
    var fed: string

    constructor ()
      ensures fed == ""
    {
      fed := "";
    }

    method Update(piece: string)
      modifies this
      ensures fed == old(fed) + piece
    {
      fed := fed + piece;
    }
  }

  lemma FrameAppend(parts: seq<string>, part: string)
    ensures Frame(parts + [part]) == Frame(parts) + Decimal(|part|) + ":" + part
  {
    if parts == [] {
      assert parts + [part] == [part];
      assert Frame([part]) == Decimal(|part|) + ":" + part + Frame([]);
    } else {
      assert (parts + [part])[1..] == parts[1..] + [part];
      FrameAppend(parts[1..], part);
    }
  }

  /** `digest(parts)`: three updates a part, then the hash of everything fed. */
  method ComputeDigest(parts: seq<string>) returns (d: Digest)
    ensures d == DigestOf(parts)
  {
    var hash := new Hash();
    for i := 0 to |parts|
      invariant hash.fed == Frame(parts[..i])
    {
      assert parts[..i + 1] == parts[..i] + [parts[i]];
      FrameAppend(parts[..i], parts[i]);
      hash.Update(Decimal(|parts[i]|));
      hash.Update(":");
      hash.Update(parts[i]);
    }
    assert parts[..|parts|] == parts;
    d := Sha256(hash.fed);
  }

  lemma {:induction false} DecimalInjective(a: nat, b: nat)
    requires Decimal(a) == Decimal(b)
    ensures a == b
  {
    var s, t := Decimal(a), Decimal(b);
    assert s[|s| - 1] == DigitChar(a % 10) && t[|t| - 1] == DigitChar(b % 10);
    if a >= 10 && b >= 10 {
      assert s[..|s| - 1] == Decimal(a / 10) && t[..|t| - 1] == Decimal(b / 10);
      DecimalInjective(a / 10, b / 10);
    }
  }

  /** The number a text of digits stands for. */
  function ValueOf(s: string): int {
    if s == "" then 0 else 10 * ValueOf(s[..|s| - 1]) + (s[|s| - 1] as int - '0' as int)
  }

  /** A printed number is digits, without a leading zero, and stands for itself. */
  lemma {:induction false} DecimalReads(n: nat)
    ensures ValueOf(Decimal(n)) == n && (n > 0 ==> Decimal(n)[0] != '0')
    ensures forall i :: 0 <= i < |Decimal(n)| ==> '0' <= Decimal(n)[i] <= '9'
  {
    if n >= 10 {
      DecimalReads(n / 10);
      assert Decimal(n)[..|Decimal(n)| - 1] == Decimal(n / 10);
    } else {
      assert Decimal(n)[..0] == "";
    }
  }

  /** A text without a colon in front of one is determined by the whole. */
  lemma FirstColon(p: string, q: string, restP: string, restQ: string)
    requires ':' !in p && ':' !in q
    requires p + ":" + restP == q + ":" + restQ
    ensures p == q && restP == restQ
  {
    var s, t := p + ":" + restP, q + ":" + restQ;
    assert s[|p|] == ':' && t[|q|] == ':';
    assert forall k :: 0 <= k < |q| ==> t[k] == q[k];
    assert forall k :: 0 <= k < |p| ==> s[k] == p[k];
    assert |p| == |q|;
    assert p == s[..|p|] == t[..|q|] == q;
    assert restP == s[|p| + 1..] == t[|q| + 1..] == restQ;
  }

  /** The length prefix makes the encoding of a list of parts injective. */
  lemma {:induction false} FrameInjective(a: seq<string>, b: seq<string>)
    requires Frame(a) == Frame(b)
    ensures a == b
  {
    hide Decimal;
    if a != [] && b != [] {
      var p, q := Decimal(|a[0]|), Decimal(|b[0]|);
      var restA, restB := a[0] + Frame(a[1..]), b[0] + Frame(b[1..]);
      assert Frame(a) == p + ":" + restA && Frame(b) == q + ":" + restB;
      FirstColon(p, q, restA, restB);
      DecimalInjective(|a[0]|, |b[0]|);
      assert a[0] == restA[..|a[0]|] && b[0] == restB[..|b[0]|];
      assert Frame(a[1..]) == restA[|a[0]|..] && Frame(b[1..]) == restB[|b[0]|..];
      FrameInjective(a[1..], b[1..]);
      assert a == [a[0]] + a[1..] && b == [b[0]] + b[1..];
    }
  }

  /** The identity of one batch: it survives a process, and no two positions share it. */
  function BatchId(namespaceId: string, lastSuccess: nat, version: nat, sinceBoundary: nat, discriminator: string): Digest {
    DigestOf([namespaceId, Decimal(lastSuccess), Decimal(version), Decimal(sinceBoundary), discriminator])
  }

  lemma BatchIdInjective(ns: string, ls: nat, v: nat, p: nat, d: string, ns': string, ls': nat, v': nat, p': nat, d': string)
    requires BatchId(ns, ls, v, p, d) == BatchId(ns', ls', v', p', d')
    ensures ns == ns' && ls == ls' && v == v' && p == p' && d == d'
  {
    var a := [ns, Decimal(ls), Decimal(v), Decimal(p), d];
    var b := [ns', Decimal(ls'), Decimal(v'), Decimal(p'), d'];
    FrameInjective(a, b);
    assert a[0] == b[0] && a[1] == b[1] && a[2] == b[2] && a[3] == b[3] && a[4] == b[4];
    DecimalInjective(ls, ls');
    DecimalInjective(v, v');
    DecimalInjective(p, p');
  }
}
