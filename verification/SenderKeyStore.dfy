/** One ratchet per room member, and what many stores built from one epoch secret can rely on. */
module SenderKeyStore {
  import opened BigEndian
  import opened Results
  import opened SenderKeys
  import opened Tables

  datatype KeyStore = KeyStore(epoch: U64, ratchets: map<U32, Ratchet>)

  ghost function Fresh(secret: seq<Byte>, epoch: U64, members: set<U32>): KeyStore {
    KeyStore(epoch, Table(members, (i: U32) => NewRatchet(SeedFor(secret, epoch, i))))
  }

  function Encrypted(s: KeyStore, sender: U32, plaintext: seq<Byte>, suffix: Suffix)
    : (KeyStore, Result<EncryptedMessage, SenderKeyError>)
  {
    if sender !in s.ratchets then (s, Err(UnknownSender(sender)))
    else
      var (r, result) := Advanced(s.ratchets[sender]);
      match result
      case Err(e) => (s, Err(e))
      case Ok(key) => (s.(ratchets := s.ratchets[sender := r]), Ok(EncryptMessage(plaintext, key, s.epoch, sender, suffix)))
  }

  /** `decrypt`: the ratchet has moved even if the ciphertext then does not authenticate. */
  function Decrypted(s: KeyStore, m: EncryptedMessage): (KeyStore, Result<seq<Byte>, SenderKeyError>) {
    if m.epoch != s.epoch then (s, Err(EpochMismatch(s.epoch, m.epoch)))
    else if m.sender !in s.ratchets then (s, Err(UnknownSender(m.sender)))
    else
      var (r, result) := AdvancedTo(s.ratchets[m.sender], m.generation);
      var s' := s.(ratchets := s.ratchets[m.sender := r]);
      match result
      case Err(e) => (s', Err(e))
      case Ok(key) => (s', DecryptMessage(m, key))
  }

  class SenderKeyStore {
    var epoch: U64
    var ratchets: map<U32, Ratchet>

    ghost function View(): KeyStore
      reads this
    {
      KeyStore(epoch, ratchets)
    }

    constructor InitializeEpoch(secret: seq<Byte>, epoch: U64, members: seq<U32>)
      ensures View() == Fresh(secret, epoch, set i | i in members)
    {
      hide Table, SeedFor, NewRatchet;
      var rs: map<U32, Ratchet> := map[];
      for k := 0 to |members|
        invariant rs == Fresh(secret, epoch, set i | i in members[..k]).ratchets
      {
        var seed := DeriveSeed(secret, epoch, members[k]);
        rs := rs[members[k] := NewRatchet(seed)];
        assert members[..k + 1] == members[..k] + [members[k]];
      }
      assert members[..|members|] == members;
      this.epoch, this.ratchets := epoch, rs;
    }

    method Encrypt(sender: U32, plaintext: seq<Byte>, suffix: Suffix)
      returns (r: Result<EncryptedMessage, SenderKeyError>)
      modifies this
      ensures (View(), r) == Encrypted(old(View()), sender, plaintext, suffix)
    {
      if sender !in ratchets {
        return Err(UnknownSender(sender));
      }
      var ratchet := new SymmetricRatchet.From(ratchets[sender]);
      var key := ratchet.Advance();
      ratchets := ratchets[sender := Ratchet(ratchet.chain, ratchet.generation)];
      match key {
        case Err(e) =>
          assert ratchets == old(ratchets);
          return Err(e);
        case Ok(k) => return Ok(EncryptMessage(plaintext, k, epoch, sender, suffix));
      }
    }

    method Decrypt(m: EncryptedMessage) returns (r: Result<seq<Byte>, SenderKeyError>)
      modifies this
      ensures (View(), r) == Decrypted(old(View()), m)
    {
      if m.epoch != epoch {
        return Err(EpochMismatch(epoch, m.epoch));
      }
      if m.sender !in ratchets {
        return Err(UnknownSender(m.sender));
      }
      var ratchet := new SymmetricRatchet.From(ratchets[m.sender]);
      var key := ratchet.AdvanceTo(m.generation);
      ratchets := ratchets[m.sender := Ratchet(ratchet.chain, ratchet.generation)];
      match key {
        case Err(e) => return Err(e);
        case Ok(k) => return DecryptMessage(m, k);
      }
    }
  }

  // ---- every ratchet stays on its sender's chain ----

  function MessageKeyAt(secret: seq<Byte>, epoch: U64, sender: U32, generation: nat): Key {
    Msg(ChainKey(SeedFor(secret, epoch, sender), generation))
  }

  predicate OnChain(s: KeyStore, secret: seq<Byte>) {
    forall i | i in s.ratchets :: s.ratchets[i] == Forward(NewRatchet(SeedFor(secret, s.epoch, i)), s.ratchets[i].generation)
  }

  /** What some store sealed for this epoch: the sender's key of that generation, the nonce sent. */
  predicate Honest(m: EncryptedMessage, secret: seq<Byte>, plaintext: seq<Byte>) {
    && m.ciphertext == Sealed(MessageKeyAt(secret, m.epoch, m.sender, m.generation), m.nonce, plaintext)
    && m.generation < U32_MAX
  }

  predicate InWindow(s: KeyStore, m: EncryptedMessage) {
    m.sender in s.ratchets && s.ratchets[m.sender].generation <= m.generation <= s.ratchets[m.sender].generation + MAX_SKIP
  }

  lemma EncryptedIsHonest(s: KeyStore, secret: seq<Byte>, sender: U32, plaintext: seq<Byte>, suffix: Suffix)
    requires OnChain(s, secret)
    ensures var (s', r) := Encrypted(s, sender, plaintext, suffix);
            && OnChain(s', secret) && s'.epoch == s.epoch && s'.ratchets.Keys == s.ratchets.Keys
            && (r.Ok? ==> && Honest(r.value, secret, plaintext)
                          && r.value.epoch == s.epoch && r.value.sender == sender && sender in s.ratchets
                          && r.value.generation == s.ratchets[sender].generation < s'.ratchets[sender].generation)
  {
    hide SeedFor;
  }

  /** Encryption succeeds if and only if the sender has a ratchet that is not exhausted. Then the
      message carries the ratchet's generation, which moves on by one, and no other ratchet moves;
      a refusal leaves the store as it was. */
  lemma EncryptSucceedsIff(s: KeyStore, sender: U32, plaintext: seq<Byte>, suffix: Suffix)
    ensures var (s', r) := Encrypted(s, sender, plaintext, suffix);
            && (r.Ok? <==> sender in s.ratchets && s.ratchets[sender].generation < U32_MAX)
            && (r.Ok? ==>
                  && r.value.sender == sender && r.value.epoch == s.epoch
                  && r.value.generation == s.ratchets[sender].generation
                  && r.value.ciphertext.Sealed? && r.value.ciphertext.plaintext == plaintext
                  && s'.ratchets.Keys == s.ratchets.Keys && s'.ratchets[sender].generation == s.ratchets[sender].generation + 1
                  && forall i | i in s.ratchets && i != sender :: s'.ratchets[i] == s.ratchets[i])
            && (r.Err? ==> s' == s)
  {
    hide Nonce;
  }

  lemma ForwardAgain(r: Ratchet, g: U32, h: U32)
    requires r.generation <= g <= h
    ensures Forward(Forward(r, g), h) == Forward(r, h)
  {
    ChainKeyAdds(r.chain, g - r.generation, h - g);
  }

  lemma AdvancedToStaysOnChain(seed: Key, r: Ratchet, target: U32)
    requires r == Forward(NewRatchet(seed), r.generation)
    ensures var (r', result) := AdvancedTo(r, target);
            && r.generation <= r'.generation && r' == Forward(NewRatchet(seed), r'.generation)
            && (result.Err? && target < U32_MAX ==> r' == r)
            && (result.Ok? ==> result.value == MessageKey(Msg(ChainKey(seed, target)), target))
  {
    if r.generation <= target {
      ForwardAgain(NewRatchet(seed), r.generation, target);
      ForwardAgain(NewRatchet(seed), r.generation, if target == U32_MAX then target else target + 1);
    }
  }

  /** Decrypting anything at all — genuine, replayed or made up — keeps the chains and never
      moves a generation back. */
  lemma DecryptedStaysOnChain(s: KeyStore, secret: seq<Byte>, m: EncryptedMessage)
    requires OnChain(s, secret)
    ensures var s' := Decrypted(s, m).0;
            && OnChain(s', secret) && s'.epoch == s.epoch && s'.ratchets.Keys == s.ratchets.Keys
            && forall i | i in s.ratchets :: s.ratchets[i].generation <= s'.ratchets[i].generation
  {
    hide SeedFor, AdvancedTo;
    if m.sender in s.ratchets {
      AdvancedToStaysOnChain(SeedFor(secret, s.epoch, m.sender), s.ratchets[m.sender], m.generation);
    }
  }

  /** A genuine message decrypts to its plaintext if and only if it is in the window of its
      sender's ratchet: not overtaken, not replayed, at most 1000 generations ahead. Otherwise it
      is refused and the store is exactly as before. */
  lemma HonestDecryptsIffInWindow(s: KeyStore, secret: seq<Byte>, m: EncryptedMessage, plaintext: seq<Byte>)
    requires OnChain(s, secret) && Honest(m, secret, plaintext) && m.epoch == s.epoch
    ensures var (s', r) := Decrypted(s, m);
            && (r == Ok(plaintext) <==> InWindow(s, m))
            && (!InWindow(s, m) ==> r.Err? && s' == s)
            && (InWindow(s, m) ==> s'.ratchets[m.sender].generation == m.generation + 1
                                   && forall i | i in s.ratchets && i != m.sender :: s'.ratchets[i] == s.ratchets[i])
  {
    hide SeedFor;
    if m.sender in s.ratchets {
      var r := s.ratchets[m.sender];
      AdvancedToStaysOnChain(SeedFor(secret, s.epoch, m.sender), r, m.generation);
      assert s.ratchets[m.sender := r] == s.ratchets;
    }
  }

  /** Exactly what decrypts: a message of the store's epoch, in the window, that was sealed under
      the sender's own key of that generation with the nonce it carries; and to nothing but what
      was sealed. */
  lemma DecryptsIff(s: KeyStore, secret: seq<Byte>, m: EncryptedMessage, plaintext: seq<Byte>)
    requires OnChain(s, secret)
    ensures Decrypted(s, m).1 == Ok(plaintext) <==> m.epoch == s.epoch && InWindow(s, m) && Honest(m, secret, plaintext)
  {
    hide SeedFor;
    if m.epoch == s.epoch && m.sender in s.ratchets {
      AdvancedToStaysOnChain(SeedFor(secret, s.epoch, m.sender), s.ratchets[m.sender], m.generation);
    }
  }

  /** Every refusal of a message and the numbers it reports: another epoch, no such member, out of
      the window on either side, the last 32-bit generation, or not sealed as `DecryptsIff` demands. */
  lemma DecryptRefusals(s: KeyStore, m: EncryptedMessage)
    ensures var r := Decrypted(s, m).1;
            var ours, member := m.epoch == s.epoch, m.epoch == s.epoch && m.sender in s.ratchets;
            && (r == Err(EpochMismatch(s.epoch, m.epoch)) <==> !ours)
            && (r == Err(UnknownSender(m.sender)) <==> ours && !member)
            && (member ==> (r == Err(RatchetTooFarBehind(s.ratchets[m.sender].generation, m.generation)) <==> !InWindow(s, m)))
            && (r == Err(GenerationOverflow(U32_MAX)) <==> member && InWindow(s, m) && m.generation == U32_MAX)
            && (r == Err(AuthenticationFailed) <==>
                  member && InWindow(s, m) && m.generation < U32_MAX && !Authentic(s, m))
  {
    hide Forward;
    if m.sender in s.ratchets && InWindow(s, m) {
      OpensIff(m, MessageKey(Msg(Forward(s.ratchets[m.sender], m.generation).chain), m.generation));
    }
  }

  /** The message opens under the key its generation has in this store. */
  predicate Authentic(s: KeyStore, m: EncryptedMessage)
    requires m.sender in s.ratchets && Reachable(s.ratchets[m.sender], m.generation)
  {
    var chain := Forward(s.ratchets[m.sender], m.generation).chain;
    DecryptMessage(m, MessageKey(Msg(chain), m.generation)).Ok?
  }

  /** Exactly when a refused message still moves the store: it names the right epoch, a known
      sender and a generation in the window, and either does not authenticate or asks for the
      last generation of a ratchet that is not there yet. */
  lemma RefusalMovesIff(s: KeyStore, m: EncryptedMessage)
    ensures var (s', r) := Decrypted(s, m);
            r.Err? && s' != s
            <==> && m.epoch == s.epoch && InWindow(s, m)
                 && (if m.generation == U32_MAX then s.ratchets[m.sender].generation < U32_MAX else !Authentic(s, m))
  {
    hide DecryptMessage;
    if m.epoch == s.epoch && m.sender in s.ratchets {
      var r := s.ratchets[m.sender];
      var (r', _) := AdvancedTo(r, m.generation);
      assert r' == r ==> s.ratchets[m.sender := r'] == s.ratchets;
      assert s.ratchets[m.sender := r'][m.sender] == r';
      assert ChainKey(r.chain, 0) == r.chain;
    }
  }

  /** What such a move costs: of the messages that were in the window, exactly those of the same
      sender up to the refused generation are out of it afterwards. */
  lemma RefusalNarrowsWindow(s: KeyStore, m: EncryptedMessage, later: EncryptedMessage)
    requires Decrypted(s, m).1.Err? && Decrypted(s, m).0 != s && InWindow(s, later) && later.generation < U32_MAX
    ensures InWindow(Decrypted(s, m).0, later) <==> later.sender != m.sender || m.generation < later.generation
  {
    hide DecryptMessage, ChainKey;
    RefusalMovesIff(s, m);
  }

  // ---- many stores, one epoch ----

  datatype World = World(stores: seq<KeyStore>, sent: seq<(EncryptedMessage, seq<Byte>)>)

  datatype WorldEvent =
    | EncryptAt(store: nat, sender: U32, plaintext: seq<Byte>, suffix: Suffix)
    | DecryptAt(store: nat, message: EncryptedMessage)

  function Next(w: World, e: WorldEvent): (w': World)
    ensures |w'.stores| == |w.stores|
  {
    if e.store >= |w.stores| then w
    else
      match e
      case EncryptAt(i, sender, plaintext, suffix) =>
        var (s, r) := Encrypted(w.stores[i], sender, plaintext, suffix);
        World(w.stores[i := s], if r.Ok? then w.sent + [(r.value, plaintext)] else w.sent)
      case DecryptAt(i, m) => w.(stores := w.stores[i := Decrypted(w.stores[i], m).0])
  }

  function Run(w: World, es: seq<WorldEvent>): (w': World)
    ensures |w'.stores| == |w.stores|
    decreases |es|
  {
    if es == [] then w else Run(Next(w, es[0]), es[1..])
  }

  ghost function Start(secret: seq<Byte>, epoch: U64, members: set<U32>, n: nat): World {
    World(seq(n, _ => Fresh(secret, epoch, members)), [])
  }

  predicate Coherent(w: World, secret: seq<Byte>, epoch: U64, members: set<U32>) {
    && (forall i | 0 <= i < |w.stores| ::
          OnChain(w.stores[i], secret) && w.stores[i].epoch == epoch && w.stores[i].ratchets.Keys == members)
    && (forall k | 0 <= k < |w.sent| ::
          Honest(w.sent[k].0, secret, w.sent[k].1) && w.sent[k].0.epoch == epoch && w.sent[k].0.sender in members)
  }

  lemma CoherentStep(w: World, e: WorldEvent, secret: seq<Byte>, epoch: U64, members: set<U32>)
    requires Coherent(w, secret, epoch, members)
    ensures Coherent(Next(w, e), secret, epoch, members)
  {
    hide Honest, OnChain;
    if e.store < |w.stores| {
      match e
      case EncryptAt(i, sender, plaintext, suffix) =>
        EncryptedIsHonest(w.stores[i], secret, sender, plaintext, suffix);
      case DecryptAt(i, m) => DecryptedStaysOnChain(w.stores[i], secret, m);
    }
  }

  lemma {:induction false} CoherentRun(w: World, es: seq<WorldEvent>, secret: seq<Byte>, epoch: U64, members: set<U32>)
    requires Coherent(w, secret, epoch, members)
    ensures Coherent(Run(w, es), secret, epoch, members)
    decreases |es|
  {
    hide Coherent;
    if es != [] {
      CoherentStep(w, es[0], secret, epoch, members);
      CoherentRun(Next(w, es[0]), es[1..], secret, epoch, members);
    }
  }

  /** After any interleaving of encryptions and decryptions in any number of stores of the same
      secret, epoch and members — foreign and forged messages included — every message sent so
      far decrypts in every store to what was encrypted, exactly when it is in that store's
      window; outside the window it is refused without a trace. */
  lemma Agreement(secret: seq<Byte>, epoch: U64, members: set<U32>, n: nat, es: seq<WorldEvent>, i: nat, k: nat)
    requires i < n && k < |Run(Start(secret, epoch, members, n), es).sent|
    ensures var w := Run(Start(secret, epoch, members, n), es);
            var (s', r) := Decrypted(w.stores[i], w.sent[k].0);
            && (r == Ok(w.sent[k].1) <==> InWindow(w.stores[i], w.sent[k].0))
            && (!InWindow(w.stores[i], w.sent[k].0) ==> r.Err? && s' == w.stores[i])
  {
    FreshOnChain(secret, epoch, members);
    CoherentRun(Start(secret, epoch, members, n), es, secret, epoch, members);
    var w := Run(Start(secret, epoch, members, n), es);
    HonestDecryptsIffInWindow(w.stores[i], secret, w.sent[k].0, w.sent[k].1);
  }

  lemma FreshOnChain(secret: seq<Byte>, epoch: U64, members: set<U32>)
    ensures OnChain(Fresh(secret, epoch, members), secret)
  {
    hide SeedFor, Table;
  }

  // ---- a receiver's whole delivery sequence ----

  function Received(s: KeyStore, ms: seq<EncryptedMessage>): seq<Result<seq<Byte>, SenderKeyError>>
    decreases |ms|
  {
    if ms == [] then [] else [Decrypted(s, ms[0]).1] + Received(Decrypted(s, ms[0]).0, ms[1..])
  }

  ghost function Generations(s: KeyStore): map<U32, nat> {
    Table(s.ratchets.Keys, i requires i in s.ratchets => s.ratchets[i].generation)
  }

  /** Each sender's messages come in order, from its next expected generation on, and skip at
      most 1000 generations at a time; senders may interleave in any way. */
  predicate InOrder(next: map<U32, nat>, ms: seq<EncryptedMessage>)
    decreases |ms|
  {
    ms == [] ||
    (&& ms[0].sender in next && next[ms[0].sender] <= ms[0].generation <= next[ms[0].sender] + MAX_SKIP
     && InOrder(next[ms[0].sender := ms[0].generation + 1], ms[1..]))
  }

  /** A list of results is all as expected iff its first is and the others are. */
  lemma AllOk(rs: seq<Result<seq<Byte>, SenderKeyError>>, ps: seq<seq<Byte>>)
    requires |rs| == |ps| > 0
    ensures (forall k | 0 <= k < |rs| :: rs[k] == Ok(ps[k]))
       <==> rs[0] == Ok(ps[0]) && (forall k | 0 <= k < |rs| - 1 :: rs[1..][k] == Ok(ps[1..][k]))
  {
    if rs[0] == Ok(ps[0]) && forall k | 0 <= k < |rs| - 1 :: rs[1..][k] == Ok(ps[1..][k]) {
      forall k | 0 <= k < |rs| ensures rs[k] == Ok(ps[k]) {
        assert k > 0 ==> rs[1..][k - 1] == Ok(ps[1..][k - 1]);
      }
    }
  }

  lemma GenerationMoves(s: KeyStore, m: EncryptedMessage)
    requires m.epoch == s.epoch && m.sender in s.ratchets && Decrypted(s, m).0.ratchets[m.sender].generation == m.generation + 1
    ensures Generations(Decrypted(s, m).0) == Generations(s)[m.sender := m.generation + 1]
  {
    hide Table, AdvancedTo;
  }

  lemma GenerationOf(s: KeyStore)
    ensures Generations(s).Keys == s.ratchets.Keys && forall i | i in s.ratchets :: Generations(s)[i] == s.ratchets[i].generation
  {
    hide Table;
  }

  /** All of a sequence of genuine messages decrypt, each to its plaintext, if and only if they
      arrive in order with bounded gaps. */
  lemma {:induction false} AllDecryptIffInOrder(s: KeyStore, secret: seq<Byte>, ms: seq<EncryptedMessage>, ps: seq<seq<Byte>>)
    requires OnChain(s, secret) && |ms| == |ps|
    requires forall k | 0 <= k < |ms| :: Honest(ms[k], secret, ps[k]) && ms[k].epoch == s.epoch
    ensures |Received(s, ms)| == |ms|
    ensures (forall k | 0 <= k < |ms| :: Received(s, ms)[k] == Ok(ps[k])) <==> InOrder(Generations(s), ms)
    decreases |ms|
  {
    hide Honest, OnChain, Decrypted, Generations;
    if ms != [] {
      var (s', r) := Decrypted(s, ms[0]);
      GenerationOf(s);
      HonestDecryptsIffInWindow(s, secret, ms[0], ps[0]);
      DecryptedStaysOnChain(s, secret, ms[0]);
      AllDecryptIffInOrder(s', secret, ms[1..], ps[1..]);
      assert Received(s, ms) == [r] + Received(s', ms[1..]);
      AllOk([r] + Received(s', ms[1..]), ps);
      if InWindow(s, ms[0]) {
        GenerationMoves(s, ms[0]);
      }
    }
  }

  // ---- no key and no nonce twice ----

  datatype StoreEvent = Encrypting(sender: U32, plaintext: seq<Byte>, suffix: Suffix) | Decrypting(message: EncryptedMessage)

  function Sent(s: KeyStore, es: seq<StoreEvent>): seq<EncryptedMessage>
    decreases |es|
  {
    if es == [] then []
    else
      match es[0]
      case Decrypting(m) => Sent(Decrypted(s, m).0, es[1..])
      case Encrypting(sender, plaintext, suffix) =>
        var (s', r) := Encrypted(s, sender, plaintext, suffix);
        (if r.Ok? then [r.value] else []) + Sent(s', es[1..])
  }

  /** A sealed message of a store's own epoch, from a generation its ratchet has not passed. */
  ghost predicate Ahead(s: KeyStore, secret: seq<Byte>, m: EncryptedMessage) {
    && m.epoch == s.epoch && m.sender in s.ratchets && s.ratchets[m.sender].generation <= m.generation
    && m.ciphertext.Sealed? && m.ciphertext.key == MessageKeyAt(secret, m.epoch, m.sender, m.generation)
    && exists x: Suffix :: m.nonce == Nonce(m.epoch, m.sender, m.generation, x)
  }

  predicate NothingShared(a: EncryptedMessage, b: EncryptedMessage) {
    && (a.sender, a.generation) != (b.sender, b.generation)
    && a.nonce != b.nonce
    && a.ciphertext.Sealed? && b.ciphertext.Sealed? && a.ciphertext.key != b.ciphertext.key
  }

  /** Over the life of a store, with encryptions and decryptions in any order, no two sent
      messages share sender and generation, nonce — even for equal random suffixes — or key. */
  lemma {:induction false} SentNeverReuses(s: KeyStore, secret: seq<Byte>, es: seq<StoreEvent>)
    requires OnChain(s, secret)
    ensures forall k | 0 <= k < |Sent(s, es)| :: Ahead(s, secret, Sent(s, es)[k])
    ensures forall j, k | 0 <= j < k < |Sent(s, es)| :: NothingShared(Sent(s, es)[j], Sent(s, es)[k])
    decreases |es|
  {
    hide OnChain, Decrypted, Encrypted, NothingShared, Ahead;
    if es != [] {
      match es[0]
      case Decrypting(m) =>
        var s' := Decrypted(s, m).0;
        DecryptedStaysOnChain(s, secret, m);
        SentNeverReuses(s', secret, es[1..]);
        forall k | 0 <= k < |Sent(s', es[1..])| ensures Ahead(s, secret, Sent(s', es[1..])[k]) {
          AheadOfEarlier(s, s', secret, Sent(s', es[1..])[k]);
        }
      case Encrypting(sender, plaintext, suffix) =>
        var (s', r) := Encrypted(s, sender, plaintext, suffix);
        EncryptedIsHonest(s, secret, sender, plaintext, suffix);
        EncryptedMovesOn(s, secret, sender, plaintext, suffix);
        SentNeverReuses(s', secret, es[1..]);
        var rest := Sent(s', es[1..]);
        forall k | 0 <= k < |rest|
          ensures Ahead(s, secret, rest[k]) && (r.Ok? ==> NothingShared(r.value, rest[k]))
        {
          AheadOfEarlier(s, s', secret, rest[k]);
          if r.Ok? {
            LaterShareNothing(s, s', secret, r.value, rest[k]);
          }
        }
        assert Sent(s, es) == if r.Ok? then [r.value] + rest else rest;
    }
  }

  lemma AheadOfEarlier(s: KeyStore, s': KeyStore, secret: seq<Byte>, m: EncryptedMessage)
    requires s'.epoch == s.epoch && s'.ratchets.Keys == s.ratchets.Keys && Ahead(s', secret, m)
    requires forall i | i in s.ratchets :: s.ratchets[i].generation <= s'.ratchets[i].generation
    ensures Ahead(s, secret, m)
  {
    hide Nonce, MessageKeyAt;
  }

  lemma EncryptedMovesOn(s: KeyStore, secret: seq<Byte>, sender: U32, plaintext: seq<Byte>, suffix: Suffix)
    requires OnChain(s, secret)
    ensures var (s', r) := Encrypted(s, sender, plaintext, suffix);
            && (forall i | i in s.ratchets :: i in s'.ratchets && s.ratchets[i].generation <= s'.ratchets[i].generation)
            && (r.Ok? ==> Ahead(s, secret, r.value) && r.value.generation < s'.ratchets[r.value.sender].generation)
  {
    hide Nonce, SeedFor;
  }

  lemma LaterShareNothing(s: KeyStore, s': KeyStore, secret: seq<Byte>, a: EncryptedMessage, b: EncryptedMessage)
    requires s'.epoch == s.epoch && Ahead(s, secret, a) && Ahead(s', secret, b)
    requires a.sender in s'.ratchets && a.generation < s'.ratchets[a.sender].generation
    ensures NothingShared(a, b)
  {
    hide Nonce, SeedFor;
    var x: Suffix :| a.nonce == Nonce(a.epoch, a.sender, a.generation, x);
    var y: Suffix :| b.nonce == Nonce(b.epoch, b.sender, b.generation, y);
    if a.nonce == b.nonce {
      NoncesDistinct(a.epoch, a.sender, a.generation, x, b.sender, b.generation, y);
    }
    if a.ciphertext.key == b.ciphertext.key {
      SeedTerm(secret, a.epoch, a.sender);
      SeedTerm(secret, b.epoch, b.sender);
      ChainKeysDistinct(SeedFor(secret, a.epoch, a.sender), SeedFor(secret, b.epoch, b.sender), a.generation, b.generation);
      SeedsDistinct(secret, a.epoch, a.sender, b.epoch, b.sender);
    }
  }

  lemma SeedTerm(secret: seq<Byte>, epoch: U64, sender: U32)
    ensures SeedFor(secret, epoch, sender).Seed?
  {
  }

  // ---- every encryption is sent ----

  /** The plaintexts a sender encrypts, in order. */
  function Plaintexts(es: seq<StoreEvent>, sender: U32): seq<seq<Byte>> {
    if es == [] then []
    else (if es[0].Encrypting? && es[0].sender == sender then [es[0].plaintext] else []) + Plaintexts(es[1..], sender)
  }

  function SentBy(ms: seq<EncryptedMessage>, sender: U32): seq<EncryptedMessage> {
    if ms == [] then [] else (if ms[0].sender == sender then [ms[0]] else []) + SentBy(ms[1..], sender)
  }

  /** Nothing of the sender's own is decrypted. */
  predicate OnlySends(es: seq<StoreEvent>, sender: U32) {
    forall e | e in es && e.Decrypting? :: e.message.sender != sender
  }

  predicate Carries(m: EncryptedMessage, generation: nat, plaintext: seq<Byte>) {
    m.generation == generation && m.ciphertext.Sealed? && m.ciphertext.plaintext == plaintext
  }

  lemma DecryptLeavesOthers(s: KeyStore, m: EncryptedMessage, sender: U32)
    requires m.sender != sender
    ensures var s' := Decrypted(s, m).0;
            (sender in s'.ratchets <==> sender in s.ratchets) && (sender in s.ratchets ==> s'.ratchets[sender] == s.ratchets[sender])
  {
    hide AdvancedTo, DecryptMessage;
  }

  lemma SentByCons(m: EncryptedMessage, ms: seq<EncryptedMessage>, sender: U32)
    ensures SentBy([m] + ms, sender) == (if m.sender == sender then [m] else []) + SentBy(ms, sender)
  {
    assert ([m] + ms)[1..] == ms;
  }

  /** Over any run in which a member's own messages are not decrypted, every one of its
      encryptions is sent, in order: the k-th carries the k-th plaintext and the k-th generation
      from where its ratchet stood, up to the last 32-bit one. */
  lemma {:induction false} EveryEncryptionIsSent(s: KeyStore, es: seq<StoreEvent>, sender: U32)
    requires sender in s.ratchets && OnlySends(es, sender)
    requires s.ratchets[sender].generation + |Plaintexts(es, sender)| <= U32_MAX
    ensures AllCarry(SentBy(Sent(s, es), sender), Plaintexts(es, sender), s.ratchets[sender].generation)
    decreases |es|
  {
    hide Encrypted, Decrypted, Carries, AllCarry;
    if es == [] {
      assert AllCarry([], [], s.ratchets[sender].generation) by { NothingCarried(s.ratchets[sender].generation); }
    } else {
      assert es[0] in es && forall e | e in es[1..] :: e in es;
      match es[0]
      case Decrypting(m) =>
        DecryptLeavesOthers(s, m, sender);
        EveryEncryptionIsSent(Decrypted(s, m).0, es[1..], sender);
        assert Plaintexts(es, sender) == Plaintexts(es[1..], sender);
      case Encrypting(writer, plaintext, suffix) =>
        var (s', r) := Encrypted(s, writer, plaintext, suffix);
        EncryptSucceedsIff(s, writer, plaintext, suffix);
        EveryEncryptionIsSent(s', es[1..], sender);
        assert Sent(s, es) == if r.Ok? then [r.value] + Sent(s', es[1..]) else Sent(s', es[1..]);
        if r.Ok? {
          SentByCons(r.value, Sent(s', es[1..]), sender);
        }
        if writer != sender {
          assert Plaintexts(es, sender) == Plaintexts(es[1..], sender);
          assert SentBy(Sent(s, es), sender) == SentBy(Sent(s', es[1..]), sender);
        } else {
          FirstCarries(r.value, r.value.generation, plaintext);
          CarriesCons(r.value, SentBy(Sent(s', es[1..]), sender), plaintext, Plaintexts(es[1..], sender), s.ratchets[sender].generation);
        }
    }
  }

  predicate AllCarry(sent: seq<EncryptedMessage>, texts: seq<seq<Byte>>, generation: nat) {
    |sent| == |texts| && forall k | 0 <= k < |sent| :: Carries(sent[k], generation + k, texts[k])
  }

  lemma CarriesCons(m: EncryptedMessage, sent: seq<EncryptedMessage>, text: seq<Byte>, texts: seq<seq<Byte>>, generation: nat)
    requires Carries(m, generation, text) && AllCarry(sent, texts, generation + 1)
    ensures AllCarry([m] + sent, [text] + texts, generation)
  {
    hide Carries;
  }

  lemma NothingCarried(generation: nat)
    ensures AllCarry([], [], generation)
  {
  }

  lemma FirstCarries(m: EncryptedMessage, generation: nat, plaintext: seq<Byte>)
    requires m.generation == generation && m.ciphertext.Sealed? && m.ciphertext.plaintext == plaintext
    ensures Carries(m, generation, plaintext)
  {
  }

  /** A sender index that is not a member never sends. */
  lemma {:induction false} StrangersSendNothing(s: KeyStore, es: seq<StoreEvent>, sender: U32)
    requires sender !in s.ratchets
    ensures SentBy(Sent(s, es), sender) == []
    decreases |es|
  {
    hide Encrypted, Decrypted;
    if es != [] {
      match es[0]
      case Decrypting(m) =>
        DecryptKeepsMembers(s, m);
        StrangersSendNothing(Decrypted(s, m).0, es[1..], sender);
      case Encrypting(writer, plaintext, suffix) =>
        var (s', r) := Encrypted(s, writer, plaintext, suffix);
        EncryptSucceedsIff(s, writer, plaintext, suffix);
        StrangersSendNothing(s', es[1..], sender);
        assert Sent(s, es) == if r.Ok? then [r.value] + Sent(s', es[1..]) else Sent(s', es[1..]);
        if r.Ok? {
          SentByCons(r.value, Sent(s', es[1..]), sender);
        }
    }
  }

  lemma DecryptKeepsMembers(s: KeyStore, m: EncryptedMessage)
    ensures Decrypted(s, m).0.ratchets.Keys == s.ratchets.Keys
  {
    hide AdvancedTo, DecryptMessage;
  }

  // ---- keys across stores ----

  /** Sealed for this epoch under the key of its sender and generation, with a nonce of theirs. */
  ghost predicate WellSealed(m: EncryptedMessage, secret: seq<Byte>, epoch: U64) {
    && m.epoch == epoch && m.ciphertext.Sealed?
    && m.ciphertext.key == MessageKeyAt(secret, epoch, m.sender, m.generation)
    && exists x: Suffix :: m.nonce == Nonce(epoch, m.sender, m.generation, x)
  }

  /** Well-sealed messages of one epoch share a key if and only if they have the same sender and
      generation, and a nonce only then. */
  lemma SealedShareIff(a: EncryptedMessage, b: EncryptedMessage, secret: seq<Byte>, epoch: U64)
    requires WellSealed(a, secret, epoch) && WellSealed(b, secret, epoch)
    ensures a.ciphertext.key == b.ciphertext.key <==> a.sender == b.sender && a.generation == b.generation
    ensures a.nonce == b.nonce ==> a.sender == b.sender && a.generation == b.generation
  {
    hide Nonce, SeedFor;
    var x: Suffix :| a.nonce == Nonce(epoch, a.sender, a.generation, x);
    var y: Suffix :| b.nonce == Nonce(epoch, b.sender, b.generation, y);
    if a.nonce == b.nonce {
      NoncesDistinct(epoch, a.sender, a.generation, x, b.sender, b.generation, y);
    }
    if a.ciphertext.key == b.ciphertext.key {
      SeedTerm(secret, epoch, a.sender);
      SeedTerm(secret, epoch, b.sender);
      ChainKeysDistinct(SeedFor(secret, epoch, a.sender), SeedFor(secret, epoch, b.sender), a.generation, b.generation);
      SeedsDistinct(secret, epoch, a.sender, epoch, b.sender);
    }
  }

  ghost predicate AllSealed(w: World, secret: seq<Byte>, epoch: U64) {
    && (forall i | 0 <= i < |w.stores| :: OnChain(w.stores[i], secret) && w.stores[i].epoch == epoch)
    && (forall k | 0 <= k < |w.sent| :: WellSealed(w.sent[k].0, secret, epoch))
  }

  lemma SealedStep(w: World, e: WorldEvent, secret: seq<Byte>, epoch: U64)
    requires AllSealed(w, secret, epoch)
    ensures AllSealed(Next(w, e), secret, epoch)
  {
    hide OnChain, MessageKeyAt, Nonce, Encrypted, Decrypted;
    if e.store < |w.stores| {
      match e
      case EncryptAt(i, sender, plaintext, suffix) =>
        EncryptedIsHonest(w.stores[i], secret, sender, plaintext, suffix);
        EncryptedMovesOn(w.stores[i], secret, sender, plaintext, suffix);
      case DecryptAt(i, m) => DecryptedStaysOnChain(w.stores[i], secret, m);
    }
  }

  lemma {:induction false} SealedRun(w: World, es: seq<WorldEvent>, secret: seq<Byte>, epoch: U64)
    requires AllSealed(w, secret, epoch)
    ensures AllSealed(Run(w, es), secret, epoch)
    decreases |es|
  {
    hide AllSealed, Next;
    if es != [] {
      SealedStep(w, es[0], secret, epoch);
      SealedRun(Next(w, es[0]), es[1..], secret, epoch);
    }
  }

  /** After any interleaving in any number of stores of one secret, epoch and member set: two
      messages sent share a message key if and only if they have the same sender and generation,
      and a nonce only then. */
  lemma KeysSharedIff(secret: seq<Byte>, epoch: U64, members: set<U32>, n: nat, es: seq<WorldEvent>, j: nat, k: nat)
    requires j < |Run(Start(secret, epoch, members, n), es).sent| && k < |Run(Start(secret, epoch, members, n), es).sent|
    ensures var sent := Run(Start(secret, epoch, members, n), es).sent;
            var a, b := sent[j].0, sent[k].0;
            && a.ciphertext.Sealed? && b.ciphertext.Sealed?
            && (a.ciphertext.key == b.ciphertext.key <==> a.sender == b.sender && a.generation == b.generation)
            && (a.nonce == b.nonce ==> a.sender == b.sender && a.generation == b.generation)
  {
    hide OnChain, Next, MessageKeyAt, Nonce;
    FreshOnChain(secret, epoch, members);
    SealedRun(Start(secret, epoch, members, n), es, secret, epoch);
    var sent := Run(Start(secret, epoch, members, n), es).sent;
    SealedShareIff(sent[j].0, sent[k].0, secret, epoch);
  }

  /** Every sender index encrypts in one store only. */
  predicate AtHome(es: seq<WorldEvent>, home: U32 -> nat) {
    forall e | e in es && e.EncryptAt? :: e.store == home(e.sender)
  }

  /** The home ratchet of a sender is past everything the sender has sent. */
  predicate HomesAhead(w: World, home: U32 -> nat) {
    forall k | 0 <= k < |w.sent| ::
      var m := w.sent[k].0;
      home(m.sender) < |w.stores| && m.sender in w.stores[home(m.sender)].ratchets
      && m.generation < w.stores[home(m.sender)].ratchets[m.sender].generation
  }

  predicate SentDistinct(w: World) {
    forall j, k | 0 <= j < k < |w.sent| ::
      (w.sent[j].0.sender, w.sent[j].0.generation) != (w.sent[k].0.sender, w.sent[k].0.generation)
  }

  lemma HomeStep(w: World, e: WorldEvent, home: U32 -> nat, secret: seq<Byte>, epoch: U64)
    requires AllSealed(w, secret, epoch) && HomesAhead(w, home) && SentDistinct(w)
    requires e.EncryptAt? ==> e.store == home(e.sender)
    ensures HomesAhead(Next(w, e), home) && SentDistinct(Next(w, e))
  {
    hide OnChain, WellSealed, Encrypted, Decrypted, Ahead;
    if e.store < |w.stores| {
      match e
      case EncryptAt(i, sender, plaintext, suffix) =>
        EncryptedIsHonest(w.stores[i], secret, sender, plaintext, suffix);
        EncryptedMovesOn(w.stores[i], secret, sender, plaintext, suffix);
      case DecryptAt(i, m) => DecryptedStaysOnChain(w.stores[i], secret, m);
    }
  }

  lemma {:induction false} HomeRun(w: World, es: seq<WorldEvent>, home: U32 -> nat, secret: seq<Byte>, epoch: U64)
    requires AllSealed(w, secret, epoch) && HomesAhead(w, home) && SentDistinct(w) && AtHome(es, home)
    ensures AllSealed(Run(w, es), secret, epoch) && SentDistinct(Run(w, es))
    decreases |es|
  {
    hide AllSealed, HomesAhead, SentDistinct, Next;
    if es != [] {
      assert es[0] in es && forall e | e in es[1..] :: e in es;
      SealedStep(w, es[0], secret, epoch);
      HomeStep(w, es[0], home, secret, epoch);
      HomeRun(Next(w, es[0]), es[1..], home, secret, epoch);
    }
  }

  /** If every sender index encrypts in one store only, no two messages sent anywhere share
      sender and generation, nonce or key, however the stores' operations interleave. */
  lemma OneHomeNeverReuses(secret: seq<Byte>, epoch: U64, members: set<U32>, n: nat, es: seq<WorldEvent>, home: U32 -> nat,
                           j: nat, k: nat)
    requires AtHome(es, home) && j < k < |Run(Start(secret, epoch, members, n), es).sent|
    ensures var sent := Run(Start(secret, epoch, members, n), es).sent; NothingShared(sent[j].0, sent[k].0)
  {
    hide OnChain, Next, MessageKeyAt, Nonce, AtHome;
    FreshOnChain(secret, epoch, members);
    HomeRun(Start(secret, epoch, members, n), es, home, secret, epoch);
    KeysSharedIff(secret, epoch, members, n, es, j, k);
  }

  /** Two stores that encrypt as the same member reuse its first key, and its first nonce too if
      their random suffixes are equal. */
  lemma TwoHomesReuse(secret: seq<Byte>, epoch: U64, members: set<U32>, sender: U32, p: seq<Byte>, q: seq<Byte>, x: Suffix, y: Suffix)
    requires sender in members
    ensures var sent := Run(Start(secret, epoch, members, 2), [EncryptAt(0, sender, p, x), EncryptAt(1, sender, q, y)]).sent;
            && |sent| == 2 && sent[0].0.ciphertext.Sealed? && sent[1].0.ciphertext.Sealed?
            && sent[0].0.ciphertext.key == sent[1].0.ciphertext.key
            && (x == y ==> sent[0].0.nonce == sent[1].0.nonce)
  {
    hide Nonce, SeedFor, Table;
    var es := [EncryptAt(0, sender, p, x), EncryptAt(1, sender, q, y)];
    var w0 := Start(secret, epoch, members, 2);
    var w1 := Next(w0, es[0]);
    assert es[1..] == [es[1]] && es[1..][1..] == [];
    assert Run(w0, es) == Run(w1, es[1..]) == Run(Next(w1, es[1]), []) == Next(w1, es[1]);
    assert w1.stores[1] == w0.stores[1] == Fresh(secret, epoch, members);
  }
}
