/** Sender keys: seed derivation, the forward-only ratchet and message encryption. Keys and
    ciphertexts are free terms, so equal terms mean equal derivations and nothing else. */
module SenderKeys {
  import opened BigEndian
  import opened Results

  datatype Key =
    | Seed(secret: seq<Byte>, info: seq<Byte>)   // HKDF of section 2.3 of RFC 5869
    | Chain(of: Key)                             // HMAC(k, "chain")
    | Msg(of: Key)                               // HMAC(k, "message")

  const MAX_SKIP: nat := 1000

  // "lockframeSenderV1"
  const LABEL: seq<Byte> := [108, 111, 99, 107, 102, 114, 97, 109, 101, 83, 101, 110, 100, 101, 114, 86, 49]

  // ---- derivation ----

  function Info(epoch: U64, sender: U32): seq<Byte> { LABEL + Be64(epoch) + Be32(sender) }

  function SeedFor(secret: seq<Byte>, epoch: U64, sender: U32): Key { Seed(secret, Info(epoch, sender)) }

  method DeriveSeed(secret: seq<Byte>, epoch: U64, sender: U32) returns (seed: Key)
    ensures seed == SeedFor(secret, epoch, sender)
  {
    var info: seq<Byte> := [];
    info := info + LABEL;
    info := info + Be64(epoch);
    info := info + Be32(sender);
    assert info == Info(epoch, sender);
    seed := Seed(secret, info);
  }

  /** The derivation input: the label, then epoch and sender, big-endian. */
  lemma InfoLayout(epoch: U64, sender: U32)
    ensures var info := Info(epoch, sender);
            |info| == 29 && info[..17] == LABEL && Value(info[17..25]) == epoch && Value(info[25..29]) == sender
  {
    var info := Info(epoch, sender);
    assert info[17..25] == Be64(epoch) && info[25..29] == Be32(sender);
  }

  /** Seeds agree only for the same epoch and the same sender. */
  lemma SeedsDistinct(secret: seq<Byte>, epoch: U64, sender: U32, epoch': U64, sender': U32)
    requires SeedFor(secret, epoch, sender) == SeedFor(secret, epoch', sender')
    ensures epoch == epoch' && sender == sender'
  {
    var a, b := Info(epoch, sender), Info(epoch', sender');
    assert a[17..25] == Be64(epoch) && a[25..29] == Be32(sender);
    assert b[17..25] == Be64(epoch') && b[25..29] == Be32(sender');
  }

  // ---- ratchet ----

  datatype Ratchet = Ratchet(chain: Key, generation: U32)

  datatype MessageKey = MessageKey(key: Key, generation: U32)

  datatype SenderKeyError =
    | UnknownSender(sender: U32)
    | RatchetTooFarBehind(current: U32, requested: U32)
    | GenerationOverflow(current: U32)
    | EpochMismatch(expected: U64, actual: U64)
    | GenerationMismatch
    | AuthenticationFailed

  function NewRatchet(seed: Key): Ratchet { Ratchet(seed, 0) }

  function Advanced(r: Ratchet): (Ratchet, Result<MessageKey, SenderKeyError>) {
    if r.generation == U32_MAX then (r, Err(GenerationOverflow(r.generation)))
    else (Ratchet(Chain(r.chain), r.generation + 1), Ok(MessageKey(Msg(r.chain), r.generation)))
  }

  function ChainKey(k: Key, n: nat): Key {
    if n == 0 then k else Chain(ChainKey(k, n - 1))
  }

  lemma {:induction false} ChainKeyAdds(k: Key, m: nat, n: nat)
    ensures ChainKey(ChainKey(k, m), n) == ChainKey(k, m + n)
  {
    if n > 0 {
      ChainKeyAdds(k, m, n - 1);
    }
  }

  /** The ratchet moved on to a later generation. */
  function Forward(r: Ratchet, generation: U32): Ratchet
    requires r.generation <= generation
  {
    Ratchet(ChainKey(r.chain, generation - r.generation), generation)
  }

  predicate Reachable(r: Ratchet, target: U32) {
    r.generation <= target <= r.generation + MAX_SKIP && target < U32_MAX
  }

  /** `advance_to`, in closed form. */
  function AdvancedTo(r: Ratchet, target: U32): (Ratchet, Result<MessageKey, SenderKeyError>) {
    if target < r.generation || target - r.generation > MAX_SKIP then
      (r, Err(RatchetTooFarBehind(r.generation, target)))
    else if target == U32_MAX then (Forward(r, U32_MAX), Err(GenerationOverflow(U32_MAX)))
    else (Forward(r, target + 1), Ok(MessageKey(Msg(Forward(r, target).chain), target)))
  }

  /** `n + 1` single advances, stopping at the first that fails; the result of the last one made. */
  function Repeated(r: Ratchet, n: nat): (Ratchet, Result<MessageKey, SenderKeyError>)
    decreases n
  {
    var (r', result) := Advanced(r);
    if n == 0 || result.Err? then (r', result) else Repeated(r', n - 1)
  }

  lemma {:induction false} RepeatedInClosedForm(r: Ratchet, n: nat)
    requires r.generation + n <= U32_MAX
    ensures var target := r.generation + n;
            Repeated(r, n) == if target == U32_MAX then (Forward(r, U32_MAX), Err(GenerationOverflow(U32_MAX)))
                              else (Forward(r, target + 1), Ok(MessageKey(Msg(Forward(r, target).chain), target)))
    decreases n
  {
    if r.generation < U32_MAX && n > 0 {
      var r' := Advanced(r).0;
      assert ChainKey(r.chain, 1) == Chain(ChainKey(r.chain, 0)) == r'.chain;
      ChainKeyAdds(r.chain, 1, n - 1);
      ChainKeyAdds(r.chain, 1, n);
      RepeatedInClosedForm(r', n - 1);
    }
  }

  /** Jumping to a generation does what that many single advances do, succeeds exactly for the
      reachable targets, and ends one past the target. */
  lemma AdvanceToIsRepeatedAdvance(r: Ratchet, target: U32)
    ensures var (r', result) := AdvancedTo(r, target);
            && (result.Ok? <==> Reachable(r, target))
            && (r.generation <= target <= r.generation + MAX_SKIP ==>
                  (r', result) == Repeated(r, target - r.generation))
            && (result.Ok? ==> r'.generation == target + 1 && result.value.generation == target)
  {
    if r.generation <= target {
      RepeatedInClosedForm(r, target - r.generation);
    }
  }

  class SymmetricRatchet {
    var chain: Key
    var generation: U32

    ghost function View(): Ratchet
      reads this
    {
      Ratchet(chain, generation)
    }

    constructor (seed: Key)
      ensures View() == NewRatchet(seed)
    {
      chain, generation := seed, 0;
    }

    /** Takes over a ratchet kept by value elsewhere, as an owned map entry is. */
    constructor From(r: Ratchet)
      ensures View() == r
    {
      chain, generation := r.chain, r.generation;
    }

    method Advance() returns (r: Result<MessageKey, SenderKeyError>)
      modifies this
      ensures (View(), r) == Advanced(old(View()))
    {
      if generation == U32_MAX {
        return Err(GenerationOverflow(generation));
      }
      var key := Msg(chain);
      chain := Chain(chain);
      var current := generation;
      generation := generation + 1;
      return Ok(MessageKey(key, current));
    }

    /** The loop ends at the target or, when the target is the last generation, in the overflow
        error of `Advance`. */
    method AdvanceTo(target: U32) returns (r: Result<MessageKey, SenderKeyError>)
      modifies this
      ensures (View(), r) == AdvancedTo(old(View()), target)
    {
      if target < generation {
        return Err(RatchetTooFarBehind(generation, target));
      }
      if target - generation > MAX_SKIP {
        return Err(RatchetTooFarBehind(generation, target));
      }
      ghost var start := View();
      r := Err(RatchetTooFarBehind(generation, target));
      while generation <= target
        invariant start.generation <= generation <= target + 1
        invariant View() == Forward(start, generation)
        invariant generation > start.generation ==>
                    r == Ok(MessageKey(Msg(Forward(start, generation - 1).chain), generation - 1))
        decreases U32_MAX - generation
      {
        r := Advance();
        if r.Err? {
          return;
        }
      }
    }
  }

  // ---- encryption ----

  datatype Cipher = Sealed(key: Key, nonce: seq<Byte>, plaintext: seq<Byte>) | Garbage(bytes: seq<Byte>)

  datatype EncryptedMessage = EncryptedMessage(
    epoch: U64, sender: U32, generation: U32, nonce: seq<Byte>, ciphertext: Cipher)

  type Suffix = s: seq<Byte> | |s| == 8 witness [0, 0, 0, 0, 0, 0, 0, 0]

  function Nonce(epoch: U64, sender: U32, generation: U32, suffix: Suffix): (n: seq<Byte>)
    ensures |n| == 24
  {
    Be64(epoch) + Be32(sender) + Be32(generation) + suffix
  }

  /** A nonce is epoch, sender and generation, big-endian, and the random suffix. */
  lemma NonceLayout(epoch: U64, sender: U32, generation: U32, suffix: Suffix)
    ensures var n := Nonce(epoch, sender, generation, suffix);
            Value(n[..8]) == epoch && Value(n[8..12]) == sender && Value(n[12..16]) == generation && n[16..] == suffix
  {
    var n := Nonce(epoch, sender, generation, suffix);
    assert n[..8] == Be64(epoch) && n[8..12] == Be32(sender) && n[12..16] == Be32(generation);
  }

  /** `build_nonce`: the four fields written into a 24-byte buffer. */
  method BuildNonce(epoch: U64, sender: U32, generation: U32, suffix: Suffix) returns (nonce: array<Byte>)
    ensures fresh(nonce) && nonce[..] == Nonce(epoch, sender, generation, suffix)
  {
    nonce := new Byte[24](_ => 0);
    var e, s, g := Be64(epoch), Be32(sender), Be32(generation);
    for i := 0 to 8
      invariant forall k | 0 <= k < i :: nonce[k] == e[k] && nonce[16 + k] == suffix[k]
    {
      nonce[i] := e[i];
      nonce[16 + i] := suffix[i];
    }
    for i := 0 to 4
      invariant forall k | 0 <= k < 8 :: nonce[k] == e[k] && nonce[16 + k] == suffix[k]
      invariant forall k | 0 <= k < i :: nonce[8 + k] == s[k] && nonce[12 + k] == g[k]
    {
      nonce[8 + i] := s[i];
      nonce[12 + i] := g[i];
    }
    assert nonce[..] == e + s + g + suffix;
  }

  /** Nonces of one epoch agree only for the same sender and generation, whatever the suffixes. */
  lemma NoncesDistinct(epoch: U64, s: U32, g: U32, x: Suffix, s': U32, g': U32, x': Suffix)
    requires Nonce(epoch, s, g, x) == Nonce(epoch, s', g', x')
    ensures s == s' && g == g'
  {
    var a, b := Nonce(epoch, s, g, x), Nonce(epoch, s', g', x');
    assert a[8..12] == Be32(s) && a[12..16] == Be32(g);
    assert b[8..12] == Be32(s') && b[12..16] == Be32(g');
  }

  function EncryptMessage(plaintext: seq<Byte>, key: MessageKey, epoch: U64, sender: U32, suffix: Suffix): EncryptedMessage {
    var nonce := Nonce(epoch, sender, key.generation, suffix);
    EncryptedMessage(epoch, sender, key.generation, nonce, Sealed(key.key, nonce, plaintext))
  }

  function DecryptMessage(m: EncryptedMessage, key: MessageKey): Result<seq<Byte>, SenderKeyError> {
    if key.generation != m.generation then Err(GenerationMismatch)
    else if m.ciphertext.Sealed? && m.ciphertext.key == key.key && m.ciphertext.nonce == m.nonce
      then Ok(m.ciphertext.plaintext)
    else Err(AuthenticationFailed)
  }

  /** A key opens exactly the messages of its own generation that were sealed under it with the
      nonce they carry, and gives back what was sealed. */
  lemma OpensIff(m: EncryptedMessage, key: MessageKey)
    ensures var r := DecryptMessage(m, key);
            && (r == Err(GenerationMismatch) <==> m.generation != key.generation)
            && (forall p :: r == Ok(p) <==> m.generation == key.generation && m.ciphertext == Sealed(key.key, m.nonce, p))
            && (r == Err(AuthenticationFailed) <==>
                  m.generation == key.generation && forall p :: m.ciphertext != Sealed(key.key, m.nonce, p))
  {
    if m.ciphertext.Sealed? {
      assert m.ciphertext == Sealed(m.ciphertext.key, m.ciphertext.nonce, m.ciphertext.plaintext);
    }
  }

  // ---- keys of different senders or generations differ ----

  function Depth(k: Key): nat {
    match k
    case Seed(_, _) => 0
    case Chain(p) => 1 + Depth(p)
    case Msg(p) => 1 + Depth(p)
  }

  lemma {:induction false} ChainDepth(k: Key, n: nat)
    ensures Depth(ChainKey(k, n)) == Depth(k) + n
  {
    if n > 0 {
      ChainDepth(k, n - 1);
    }
  }

  lemma {:induction false} ChainKeysDistinct(k: Key, l: Key, m: nat, n: nat)
    requires k.Seed? && l.Seed? && ChainKey(k, m) == ChainKey(l, n)
    ensures k == l && m == n
  {
    ChainDepth(k, m);
    ChainDepth(l, n);
    if m > 0 {
      ChainKeysDistinct(k, l, m - 1, n - 1);
    }
  }
}
