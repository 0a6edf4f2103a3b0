/**
 The lease on one dispatch of one job (crates/flexiq-core/src/lease.rs): its wire
 form, the two fences that compare it, and the book of current leases.
*/
module Lease {
  import opened Bytes
  import opened Text
  import opened Wrappers
  import Base64
  import Utf8

  /** A signed 64-bit number. */
  type Epoch = e: int | -0x8000_0000_0000_0000 <= e < 0x8000_0000_0000_0000

  const WORD := 0x1_0000_0000_0000_0000

  lemma LimitWord()
    ensures Limit(8) == WORD
  {
    assert Limit(2) == 0x1_0000;
    assert Limit(4) == 256 * (256 * Limit(2));
    assert Limit(6) == 256 * (256 * Limit(4));
    assert Limit(8) == 256 * (256 * Limit(6));
  }

  /** Two's complement. */
  function Unsigned(e: Epoch): (n: nat)
    ensures n < WORD
  {
    if e >= 0 then e else e + WORD
  }

  function Signed(n: nat): Epoch
    requires n < WORD
  {
    if n < 0x8000_0000_0000_0000 then n else n - WORD
  }

  function FromEpoch(epoch: Epoch): Str {
    Base64.Encode(BigEndian(Unsigned(epoch), 8))
  }

  function EpochOf(token: Str): Option<Epoch> {
    match Base64.Decode(token)
    case None => None
    case Some(b) =>
      if |b| != 8 then None
      else
        LeadingBound(b, 8);
        LimitWord();
        Some(Signed(FromBigEndian(b)))
  }

  /** A token off a byte transport, kept only when it decodes. */
  function FromWire(bytes: seq<Byte>): Option<Str> {
    if Utf8.WellFormed(bytes) && EpochOf(bytes).Some? then Some(bytes) else None
  }

  /** A token names an epoch exactly when it is that epoch's token. */
  lemma EpochExact(token: Str, epoch: Epoch)
    ensures EpochOf(token) == Some(epoch) <==> token == FromEpoch(epoch)
  {
    var b := BigEndian(Unsigned(epoch), 8);
    LimitWord();
    BigEndianRoundTrip(Unsigned(epoch), 8);
    Base64.DecodeExact(token, b);
    if EpochOf(token) == Some(epoch) {
      var c := Base64.Decode(token).value;
      LeadingBound(c, 8);
      FromBigEndianRoundTrip(c);
      assert Unsigned(epoch) == FromBigEndian(c);
    }
  }

  /** Off the wire, exactly the minted tokens are accepted, unchanged. */
  lemma FromWireExact(bytes: seq<Byte>)
    ensures FromWire(bytes) == Some(bytes) <==> exists e: Epoch :: bytes == FromEpoch(e)
    ensures FromWire(bytes).Some? ==> FromWire(bytes) == Some(bytes)
  {
    if e: Epoch :| bytes == FromEpoch(e) {
      EpochExact(bytes, e);
      Base64.EncodeAscii(BigEndian(Unsigned(e), 8));
      Utf8.AsciiIsWellFormed(bytes);
    }
    if FromWire(bytes).Some? {
      EpochExact(bytes, EpochOf(bytes).value);
    }
  }

  /** Two accepted tokens are the same bytes exactly when they name the same epoch. */
  lemma TokensEqualIffEpochsEqual(a: seq<Byte>, b: seq<Byte>)
    requires FromWire(a).Some? && FromWire(b).Some?
    ensures a == b <==> EpochOf(a) == EpochOf(b)
  {
    EpochExact(a, EpochOf(a).value);
    EpochExact(b, EpochOf(b).value);
  }

  lemma MintedEpochRoundTrip(epoch: Epoch)
    ensures FromWire(FromEpoch(epoch)) == Some(FromEpoch(epoch)) && EpochOf(FromEpoch(epoch)) == Some(epoch)
  {
    FromWireExact(FromEpoch(epoch));
    EpochExact(FromEpoch(epoch), epoch);
  }

  // ------------------------------------------------------------------ the two fences

  predicate EpochsAgree(claim: Option<Epoch>, result: Option<Epoch>) {
    match (claim, result)
    case (Some(c), Some(r)) => c == r
    case _ => true
  }

  predicate LeaseAuthorizes(claim: Option<Epoch>, presented: Option<Epoch>) {
    match (claim, presented)
    case (Some(c), Some(p)) => c == p
    case _ => false
  }

  /** The strict fence implies the permissive one, and they differ exactly on an absent epoch. */
  lemma FencesDifferOnAbsence(claim: Option<Epoch>, presented: Option<Epoch>)
    ensures LeaseAuthorizes(claim, presented) ==> EpochsAgree(claim, presented)
    ensures EpochsAgree(claim, presented) != LeaseAuthorizes(claim, presented) <==> claim.None? || presented.None?
  {
  }

  // ------------------------------------------------------------------------ the book

  /** One lease per job, that of its newest dispatch not yet retired. */
  class LeaseBook {
    var current: map<Str, Str>

    constructor ()
      ensures current == map[]
    {
      current := map[];
    }

    method Issue(jobId: Str, lease: Str)
      modifies this
      ensures current == old(current)[jobId := lease]
    {
      current := current[jobId := lease];
    }

    function Current(jobId: Str): Option<Str>
      reads this
    {
      if jobId in current then Some(current[jobId]) else None
    }

    predicate IsCurrent(jobId: Str, lease: Str)
      reads this
    {
      Current(jobId) == Some(lease)
    }

    /** Forgets a settled dispatch, and leaves a newer dispatch's entry alone. */
    method Retire(jobId: Str, lease: Str)
      modifies this
      ensures !IsCurrent(jobId, lease)
      ensures forall job :: Current(job) == if job == jobId && old(IsCurrent(jobId, lease)) then None else old(Current(job))
    {
      if jobId in current && current[jobId] == lease {
        current := current - {jobId};
      }
    }

    method Forget(jobId: Str)
      modifies this
      ensures current == old(current) - {jobId}
    {
      current := current - {jobId};
    }
  }
}
