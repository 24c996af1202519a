/**
 CA rotation of the admission webhook. Three cells: the Secret, the CA bundle registered with
 the API server, and the certificate in memory. A certificate authority is an identity and an
 expiry, a serving certificate is the identity that signed it and an expiry.
 */
module WebhookTls {
  import opened Prelude

  type Time = nat

  datatype CA = CA(id: nat, notAfter: Time)

  datatype Leaf = Leaf(signer: nat, notAfter: Time)

  /** The newest CA comes first; its key is in the Secret. */
  datatype Bundle = Bundle(ca: seq<CA>, leaf: Leaf)

  datatype Content = Absent | Corrupt | Holding(bundle: Bundle)

  datatype Options = Options(
    caValidity: nat, servingValidity: nat, caRenewBefore: nat, servingRenewBefore: nat)

  /** What others do to the cells before an API call reaches the server. */
  datatype Meddling = Untouched | DeleteSecret | CorruptSecret | TouchRegistration

  /** `Fails` reports an error without effect, `Lost` reports an error after the effect. */
  datatype Reply = Succeeds | Fails | Lost

  /** One API call: how long it takes, who meddles meanwhile, how it ends. */
  datatype Call = Call(elapsed: nat, meddling: Meddling, reply: Reply)

  datatype Error = Conflict | Missing | Other

  function Ids(ca: seq<CA>): set<nat> { set c | c in ca :: c.id }

  /** The serving certificate verifies against one of the roots, and nothing has expired. */
  predicate Parses(b: Bundle, now: Time) {
    && b.ca != [] && now <= b.leaf.notAfter
    && exists i :: 0 <= i < |b.ca| && b.ca[i].id == b.leaf.signer && now <= b.ca[i].notAfter
  }

  /** Every bundle the lifecycle writes is signed by its newest CA. */
  predicate SelfSigned(b: Bundle) { b.ca != [] && b.leaf.signer == b.ca[0].id }

  const CALM := Call(0, Untouched, Succeeds)

  lemma ParsedSigner(b: Bundle, now: Time)
    requires Parses(b, now)
    ensures b.leaf.signer in Ids(b.ca)
  {
  }

  function Generate(id: nat, options: Options, now: Time, previous: seq<CA>): Option<Bundle> {
    if options.caValidity == 0 || options.servingValidity == 0 then None
    else Some(Bundle([CA(id, now + options.caValidity)] + previous, Leaf(id, now + options.servingValidity)))
  }

  lemma GeneratedTrust(id: nat, options: Options, now: Time, previous: seq<CA>)
    requires Generate(id, options, now, previous).Some?
    ensures var b := Generate(id, options, now, previous).value;
            && Ids(b.ca) == Ids(previous) + {id} && b.leaf.signer == id
            && SelfSigned(b) && Parses(b, now)
  {
    var b := Generate(id, options, now, previous).value;
    assert b.ca[0].id == b.leaf.signer;
    ConcatIds([CA(id, now + options.caValidity)], previous);
  }

  function RenewServing(b: Bundle, options: Options, now: Time): Option<Bundle> {
    if Parses(b, now) then Some(b.(leaf := Leaf(b.ca[0].id, now + options.servingValidity))) else None
  }

  /** Whether `part` occurs in `whole` as a block. */
  predicate Contains(whole: seq<CA>, part: seq<CA>) {
    part <= whole || (whole != [] && Contains(whole[1..], part))
  }

  lemma {:induction false} ContainedIds(whole: seq<CA>, part: seq<CA>)
    requires Contains(whole, part)
    ensures Ids(part) <= Ids(whole)
  {
    if part <= whole {
      assert forall c :: c in part ==> c in whole;
    } else {
      ContainedIds(whole[1..], part);
      assert forall c :: c in whole[1..] ==> c in whole;
    }
  }

  lemma ConcatIds(a: seq<CA>, b: seq<CA>)
    ensures Ids(a + b) == Ids(a) + Ids(b)
  {
    forall c ensures c in Ids(a + b) <==> c in Ids(a) + Ids(b) {
      assert forall x :: x in a + b <==> x in a || x in b;
    }
  }

  /** The Secret as read or written, with its resource version. */
  datatype SecretCopy = SecretCopy(content: Content, version: nat)

  class Lifecycle {
    const options: Options
    var secret: SecretCopy
    var registration: Option<seq<CA>>
    var registrationVersion: nat
    var store: Option<Bundle>
    var now: Time
    var nextId: nat
    var script: seq<Call>
    /** Whether the served certificate was trusted at every moment so far. */
    ghost var alwaysTrusted: bool

    /**
     A replica starts with whatever the API server holds; a Secret it finds was written by an earlier one.
     Keys are never made twice: those from `nextId` on do not exist yet.
     */
    constructor (options: Options, registration: Option<seq<CA>>, secret: Content, now: Time, nextId: nat)
      requires secret.Holding? ==> SelfSigned(secret.bundle) && forall id :: id in Ids(secret.bundle.ca) ==> id < nextId
      requires registration.Some? ==> forall id :: id in Ids(registration.value) ==> id < nextId
      ensures Inv() && store.None? && alwaysTrusted && this.nextId == nextId
      ensures this.options == options && this.registration == registration && this.secret.content == secret
      ensures this.now == now && script == []
    {
      this.options := options;
      this.registration, registrationVersion := registration, 0;
      this.secret, store := SecretCopy(secret, 0), None;
      this.now, this.nextId, script := now, nextId, [];
      alwaysTrusted := true;
    }

    /** The bundle contains the CA that signed the certificate being served. */
    ghost predicate Covers(ca: seq<CA>)
      reads this`store
    {
      store.Some? ==> store.value.leaf.signer in Ids(ca)
    }

    ghost predicate Trusted()
      reads this`store, this`registration
    {
      store.Some? ==> registration.Some? && Covers(registration.value)
    }

    /** The keys of these CAs exist. */
    ghost predicate Exist(ca: seq<CA>)
      reads this`nextId
    {
      forall id :: id in Ids(ca) ==> id < nextId
    }

    /** The served certificate is trusted, and stays so when the Secret's bundle is published. */
    ghost predicate Inv()
      reads this`store, this`registration, this`secret, this`nextId
    {
      && Trusted()
      && (secret.content.Holding? ==>
            Covers(secret.content.bundle.ca) && SelfSigned(secret.content.bundle) && Exist(secret.content.bundle.ca))
      && (registration.Some? ==> Exist(registration.value))
    }

    /** A bundle made at `now`: a CA with a new key in front of `previous`, and a certificate that it signed. */
    ghost predicate Issued(b: Bundle, previous: seq<CA>, now: Time) {
      && b.ca != [] && b.ca[1..] == previous && b.ca[0].id !in Ids(previous)
      && b.ca[0].notAfter == now + options.caValidity
      && b.leaf == Leaf(b.ca[0].id, now + options.servingValidity)
    }

    /**
     What an undisturbed ensureSecret makes of the Secret: a valid bundle stays, with a new certificate from
     its newest CA if the old one is about to expire; otherwise a new bundle in front of the registered CAs.
     */
    ghost predicate Restored(before: Content, registered: Option<seq<CA>>, now: Time, b: Bundle) {
      if before.Holding? && Parses(before.bundle, now) then
        && b.ca == before.bundle.ca
        && b.leaf == if before.bundle.leaf.notAfter <= now + options.servingRenewBefore
                     then Leaf(before.bundle.ca[0].id, now + options.servingValidity) else before.bundle.leaf
      else Issued(b, if registered.Some? then registered.value else [], now)
    }

    /** What an undisturbed Ensure makes of that: if its CA is about to expire, a new bundle in front of it. */
    ghost predicate Rotated(restored: Bundle, now: Time, b: Bundle)
      requires restored.ca != []
    {
      if restored.ca[0].notAfter <= now + options.caRenewBefore then Issued(b, restored.ca, now) else b == restored
    }

    /** Nobody interferes: every call succeeds at once. */
    ghost predicate Quiet(calls: nat)
      reads this`script
    {
      |script| >= calls && forall i :: 0 <= i < |script| ==> script[i] == CALM
    }

    /** Only meddling happened to the Secret since it was `copy`. */
    ghost predicate StillOrLost(copy: Content)
      reads this`secret
    {
      secret.content == copy || !secret.content.Holding?
    }

    /** `calls` calm calls went by and left Secret and clock alone. */
    ghost predicate Undisturbed(script: seq<Call>, secret: SecretCopy, now: Time, calls: nat)
      requires calls <= |script|
      reads this`script, this`secret, this`now
    {
      this.script == script[calls..] && this.secret == secret && this.now == now
    }

    /* API calls. Each records whether the certificate is trusted before and after its effect. */

    /** Time passes, others meddle, and the call gets its reply; a script that ends is a crash. */
    method Begin() returns (reply: Reply)
      modifies this`now, this`script, this`secret, this`registrationVersion, this`alwaysTrusted
      ensures StillOrLost(old(secret.content))
      ensures old(Quiet(1)) ==> reply.Succeeds? && Undisturbed(old(script), old(secret), old(now), 1)
      ensures old(Quiet(1)) ==> registrationVersion == old(registrationVersion)
      ensures secret.version == old(secret.version) ==> secret == old(secret)
      ensures alwaysTrusted == (old(alwaysTrusted) && Trusted())
      ensures old(now) <= now
    {
      alwaysTrusted := alwaysTrusted && Trusted();
      if script == [] {
        return Fails;
      }
      var call := script[0];
      script := script[1..];
      now := now + call.elapsed;
      match call.meddling {
        case Untouched =>
        case DeleteSecret => secret := SecretCopy(Absent, secret.version + 1);
        case CorruptSecret => secret := SecretCopy(Corrupt, secret.version + 1);
        case TouchRegistration => registrationVersion := registrationVersion + 1;
      }
      reply := call.reply;
    }

    ghost method Record()
      modifies this`alwaysTrusted
      ensures alwaysTrusted == (old(alwaysTrusted) && Trusted())
    {
      alwaysTrusted := alwaysTrusted && Trusted();
    }

    method GetSecret() returns (r: Result<SecretCopy, Error>)
      requires Inv()
      modifies this`now, this`script, this`secret, this`registrationVersion, this`alwaysTrusted
      ensures Inv() && (old(alwaysTrusted) ==> alwaysTrusted)
      ensures r.Ok? ==> r.value == secret && !r.value.content.Absent?
      ensures r == Err(Missing) ==> secret.content.Absent?
      ensures old(Quiet(1)) ==> (r.Ok? || r == Err(Missing)) && Undisturbed(old(script), old(secret), old(now), 1)
    {
      var reply := Begin();
      if !reply.Succeeds? {
        return Err(Other);
      }
      r := if secret.content.Absent? then Err(Missing) else Ok(secret);
    }

    method CreateSecret(bundle: Bundle) returns (r: Result<SecretCopy, Error>)
      requires Inv() && Covers(bundle.ca) && SelfSigned(bundle) && Exist(bundle.ca)
      modifies this`now, this`script, this`secret, this`registrationVersion, this`alwaysTrusted
      ensures Inv() && (old(alwaysTrusted) ==> alwaysTrusted)
      ensures r.Ok? ==> r.value == secret && secret.content == Holding(bundle)
      ensures r != Err(Missing)
      ensures old(Quiet(1)) && old(secret.content.Absent?) ==>
                r.Ok? && now == old(now) && script == old(script)[1..]
    {
      var reply := Begin();
      if reply.Fails? {
        return Err(Other);
      }
      if !secret.content.Absent? {
        return Err(Conflict);
      }
      secret := SecretCopy(Holding(bundle), secret.version + 1);
      r := if reply.Lost? then Err(Other) else Ok(secret);
    }

    /** Update under the optimistic lock of the version that was read. */
    method UpdateSecret(version: nat, bundle: Bundle) returns (r: Result<SecretCopy, Error>)
      requires Inv() && Covers(bundle.ca) && SelfSigned(bundle) && Exist(bundle.ca)
      modifies this`now, this`script, this`secret, this`registrationVersion, this`alwaysTrusted
      ensures Inv() && (old(alwaysTrusted) ==> alwaysTrusted)
      ensures r.Ok? ==> r.value == secret && secret.content == Holding(bundle)
      ensures old(Quiet(1)) && version == old(secret.version) && !old(secret.content.Absent?) ==>
                r.Ok? && now == old(now) && script == old(script)[1..]
    {
      var reply := Begin();
      if reply.Fails? {
        return Err(Other);
      }
      if secret.content.Absent? {
        return Err(Missing);
      }
      if secret.version != version {
        return Err(Conflict);
      }
      secret := SecretCopy(Holding(bundle), secret.version + 1);
      r := if reply.Lost? then Err(Other) else Ok(secret);
    }

    /** The registered bundle, empty when there is no registration of the expected form. */
    method RegisteredCABundle() returns (r: Result<seq<CA>, Error>)
      requires Inv()
      modifies this`now, this`script, this`secret, this`registrationVersion, this`alwaysTrusted
      ensures Inv() && (old(alwaysTrusted) ==> alwaysTrusted)
      ensures StillOrLost(old(secret.content))
      ensures r.Ok? ==> Covers(r.value) && r.value == if registration.Some? then registration.value else []
      ensures old(Quiet(1)) ==> r.Ok? && Undisturbed(old(script), old(secret), old(now), 1)
    {
      var reply := Begin();
      if !reply.Succeeds? {
        return Err(Other);
      }
      r := Ok(if registration.Some? then registration.value else []);
    }

    /** Server-side apply of the desired registration. */
    method ReconcileRegistration(ca: seq<CA>) returns (r: Result<(), Error>)
      requires Inv() && Covers(ca) && Exist(ca)
      modifies this`now, this`script, this`secret, this`registration, this`registrationVersion, this`alwaysTrusted
      ensures Inv() && (old(alwaysTrusted) ==> alwaysTrusted)
      ensures StillOrLost(old(secret.content))
      ensures r.Ok? ==> registration == Some(ca)
      ensures old(Quiet(1)) ==> r.Ok? && Undisturbed(old(script), old(secret), old(now), 1)
    {
      var reply := Begin();
      if reply.Fails? {
        return Err(Other);
      }
      registration, registrationVersion := Some(ca), registrationVersion + 1;
      Record();
      r := if reply.Lost? then Err(Other) else Ok(());
    }

    /** One attempt to add `next` in front of the registered bundle, under the optimistic lock. */
    method TryPublish(next: seq<CA>) returns (r: Result<(), Error>)
      requires Inv() && Exist(next)
      modifies this`now, this`script, this`secret, this`registration, this`registrationVersion, this`alwaysTrusted
      ensures Inv() && (old(alwaysTrusted) ==> alwaysTrusted)
      ensures StillOrLost(old(secret.content))
      ensures r.Ok? ==> registration.Some? && next <= registration.value && Ids(next) <= Ids(registration.value)
      ensures old(Quiet(2)) ==> r.Ok? == old(registration.Some?) && r != Err(Conflict)
      ensures old(Quiet(2)) && r.Ok? ==> Quiet(|old(script)| - 2) && secret == old(secret) && now == old(now)
    {
      hide Ids, Contains;
      var reply := Begin();
      if !reply.Succeeds? || registration.None? {
        return Err(Other);
      }
      var current, version := registration.value, registrationVersion;
      var combined := next;
      if |current| > 0 && !Contains(combined, current) {
        combined := combined + current;
      }
      PublishKeepsTrust(next, current, combined);
      if current == combined {
        return Ok(());
      }
      reply := Begin();
      if reply.Fails? {
        return Err(Other);
      }
      if registrationVersion != version {
        return Err(Conflict);
      }
      registration, registrationVersion := Some(combined), registrationVersion + 1;
      Record();
      r := if reply.Lost? then Err(Other) else Ok(());
    }

    static lemma PublishKeepsTrust(next: seq<CA>, current: seq<CA>, combined: seq<CA>)
      requires combined == if |current| > 0 && !Contains(next, current) then next + current else next
      ensures Ids(next) <= Ids(combined) && Ids(current) <= Ids(combined) <= Ids(next) + Ids(current) && next <= combined
    {
      ConcatIds(next, current);
      if Contains(next, current) { ContainedIds(next, current); }
    }

    /* The reconciliation */

    predicate ValidOptions() { options.caValidity > 0 && options.servingValidity > 0 }

    method PublishRotationTrust(next: seq<CA>) returns (r: Result<(), Error>)
      requires Inv() && Exist(next)
      modifies this`now, this`script, this`secret, this`registration, this`registrationVersion, this`alwaysTrusted
      ensures Inv() && (old(alwaysTrusted) ==> alwaysTrusted)
      ensures StillOrLost(old(secret.content))
      ensures r.Ok? ==> registration.Some? && next <= registration.value && Ids(next) <= Ids(registration.value)
      ensures old(Quiet(2)) ==> r.Ok? == old(registration.Some?) && r != Err(Conflict)
      ensures old(Quiet(2)) && r.Ok? ==> Quiet(|old(script)| - 2) && secret == old(secret) && now == old(now)
    {
      r := TryPublish(next);
      var steps := 1;
      while steps < 4 && r == Err(Conflict)
        invariant Inv() && (old(alwaysTrusted) ==> alwaysTrusted)
        invariant StillOrLost(old(secret.content))
        invariant r.Ok? ==> registration.Some? && next <= registration.value && Ids(next) <= Ids(registration.value)
        invariant old(Quiet(2)) && r.Ok? ==> Quiet(|old(script)| - 2) && secret == old(secret) && now == old(now)
        invariant old(Quiet(2)) ==> r != Err(Conflict) && r.Ok? == old(registration.Some?)
      {
        r := TryPublish(next);
        steps := steps + 1;
      }
    }

    /** The Secret holds a bundle that parses. */
    predicate HeldAndValid()
      reads this`secret, this`now
    {
      secret.content.Holding? && Parses(secret.content.bundle, now)
    }

    /** The valid bundle's CA is due for rotation while there is no registration to publish to. */
    predicate RotationBlocked()
      reads this`secret, this`now, this`registration
    {
      HeldAndValid() && registration.None? && secret.content.bundle.ca[0].notAfter - now <= options.caRenewBefore
    }

    method GenerateBundle(previous: seq<CA>) returns (bundle: Option<Bundle>)
      requires Inv() && Exist(previous)
      modifies this`nextId
      ensures Inv() && bundle.Some? == ValidOptions()
      ensures bundle.Some? ==>
                && Issued(bundle.value, previous, now) && Exist(bundle.value.ca)
                && Ids(previous) <= Ids(bundle.value.ca) && SelfSigned(bundle.value) && Parses(bundle.value, now)
    {
      bundle := Generate(nextId, options, now, previous);
      if bundle.Some? { GeneratedTrust(nextId, options, now, previous); }
      nextId := nextId + 1;
    }

    /** A fresh CA is trusted before the Secret that carries it is written. */
    method PublishGenerated() returns (r: Result<Bundle, Error>)
      requires Inv()
      modifies this
      ensures Inv() && store == old(store) && (old(alwaysTrusted) ==> alwaysTrusted)
      ensures StillOrLost(old(secret.content))
      ensures r.Ok? ==> Covers(r.value.ca) && registration == Some(r.value.ca) && SelfSigned(r.value) && Exist(r.value.ca)
      ensures r != Err(Conflict)
      ensures old(Quiet(2)) && ValidOptions() ==>
                && r.Ok? && Parses(r.value, now) && Undisturbed(old(script), old(secret), old(now), 2)
                && Issued(r.value, if old(registration).Some? then old(registration).value else [], now)
    {
      var previous := RegisteredCABundle();
      if previous.Err? {
        return Err(Other);
      }
      var generated := GenerateBundle(previous.value);
      if generated.None? {
        return Err(Other);
      }
      var published := ReconcileRegistration(generated.value.ca);
      r := if published.Err? then Err(Other) else Ok(generated.value);
    }

    /** One attempt of ensureSecret. */
    method TryEnsureSecret() returns (r: Result<SecretCopy, Error>)
      requires Inv()
      modifies this
      ensures Inv() && store == old(store) && (old(alwaysTrusted) ==> alwaysTrusted)
      ensures r.Ok? ==> r.value == secret && secret.content.Holding?
      ensures old(Quiet(4)) && ValidOptions() ==>
                && r.Ok? && Quiet(|old(script)| - 4) && now == old(now)
                && Parses(secret.content.bundle, now)
                && Restored(old(secret.content), old(registration), now, secret.content.bundle)
                && registration == (if old(HeldAndValid()) then old(registration) else Some(secret.content.bundle.ca))
    {
      var read := GetSecret();
      if read == Err(Missing) {
        var generated := PublishGenerated();
        if generated.Err? {
          return Err(generated.error);
        }
        r := CreateSecret(generated.value);
        return;
      }
      if read.Err? {
        return Err(read.error);
      }
      var copy := read.value;
      if !copy.content.Holding? || !Parses(copy.content.bundle, now) {
        var generated := PublishGenerated();
        if generated.Err? {
          return Err(generated.error);
        }
        r := UpdateSecret(copy.version, generated.value);
        return;
      }
      var current := copy.content.bundle;
      if current.leaf.notAfter - now <= options.servingRenewBefore {
        var renewed := RenewServing(current, options, now);
        if renewed.None? {
          return Err(Other);
        }
        r := UpdateSecret(copy.version, renewed.value);
        return;
      }
      r := Ok(copy);
    }

    method EnsureSecret() returns (r: Result<SecretCopy, Error>)
      requires Inv()
      modifies this
      ensures Inv() && store == old(store) && (old(alwaysTrusted) ==> alwaysTrusted)
      ensures r.Ok? ==> r.value == secret && secret.content.Holding?
      ensures old(Quiet(4)) && ValidOptions() ==>
                && r.Ok? && Quiet(|old(script)| - 4) && now == old(now)
                && Parses(secret.content.bundle, now)
                && Restored(old(secret.content), old(registration), now, secret.content.bundle)
                && registration == (if old(HeldAndValid()) then old(registration) else Some(secret.content.bundle.ca))
    {
      r := TryEnsureSecret();
      var steps := 1;
      while steps < 4 && r == Err(Conflict)
        invariant Inv() && store == old(store) && (old(alwaysTrusted) ==> alwaysTrusted)
        invariant r.Ok? ==> r.value == secret && secret.content.Holding?
        invariant old(Quiet(4)) && ValidOptions() ==>
                    && r.Ok? && Quiet(|old(script)| - 4) && now == old(now)
                    && Parses(secret.content.bundle, now)
                    && Restored(old(secret.content), old(registration), now, secret.content.bundle)
                    && registration == (if old(HeldAndValid()) then old(registration) else Some(secret.content.bundle.ca))
      {
        r := TryEnsureSecret();
        steps := steps + 1;
      }
    }

    /** Serve the bundle once it is registered. */
    method Load(bundle: Bundle)
      requires Inv() && registration == Some(bundle.ca) && bundle.leaf.signer in Ids(bundle.ca)
      requires StillOrLost(Holding(bundle))
      modifies this`store, this`alwaysTrusted
      ensures Inv() && store == Some(bundle) && (old(alwaysTrusted) ==> alwaysTrusted)
    {
      store := Some(bundle);
      Record();
    }

    /** A bundle that parses and is in the Secret is registered and then served. */
    method Promote(bundle: Bundle) returns (ok: bool)
      requires Inv() && Covers(bundle.ca) && SelfSigned(bundle) && bundle.leaf.signer in Ids(bundle.ca) && Exist(bundle.ca)
      requires StillOrLost(Holding(bundle))
      modifies this
      ensures old(Quiet(1)) ==> ok && now == old(now) && secret == old(secret)
      ensures Inv() && (old(alwaysTrusted) ==> alwaysTrusted)
      ensures ok ==> store == Some(bundle) && registration == Some(bundle.ca)
      ensures !ok ==> store == old(store)
    {
      var registered := ReconcileRegistration(bundle.ca);
      if registered.Err? {
        return false;
      }
      Load(bundle);
      ok := true;
    }

    /**
     Ensure. Whatever the API calls do and wherever it is cut off, the certificate being served
     was trusted at every moment; and when it succeeds, what it serves is what is registered.
     */
    method Ensure() returns (ok: bool)
      requires Inv()
      modifies this
      ensures Inv()
      ensures old(alwaysTrusted) ==> alwaysTrusted
      ensures ok ==> store.Some? && registration == Some(store.value.ca)
      ensures ok ==> store.value.leaf.signer in Ids(store.value.ca)
      ensures !ok ==> store == old(store)
      // Undisturbed, it repairs every state but one, and the webhook is then ready.
      ensures old(Quiet(8)) && ValidOptions() ==> ok == !old(RotationBlocked())
      ensures old(Quiet(8)) && ValidOptions() && ok ==> Parses(store.value, now)
      // What it then stores, registers and serves: the Secret restored, and rotated if its CA is due.
      ensures old(Quiet(8)) && ValidOptions() && ok ==>
                && now == old(now) && secret.content == Holding(store.value)
                && exists b: Bundle :: b.ca != [] && Restored(old(secret.content), old(registration), now, b) && Rotated(b, now, store.value)
    {
      hide Ids, Contains, Generate;
      var attempts := 0;
      while attempts < 5
        invariant Inv() && store == old(store) && (old(alwaysTrusted) ==> alwaysTrusted)
        invariant old(Quiet(8)) && ValidOptions() ==> attempts == 0 && Quiet(8)
        invariant attempts == 0 ==> old(Quiet(8)) == Quiet(8) && old(RotationBlocked()) == RotationBlocked()
        invariant attempts == 0 ==> secret == old(secret) && registration == old(registration) && now == old(now)
      {
        attempts := attempts + 1;
        var ensured := EnsureSecret();
        if ensured.Err? {
          return false;
        }
        var copy := ensured.value;
        var current := copy.content.bundle;
        if !Parses(current, now) {
          return false;
        }
        ParsedSigner(current, now);
        if current.ca[0].notAfter - now > options.caRenewBefore {
          ok := Promote(current);
          return;
        }
        var next := GenerateBundle(current.ca);
        if next.None? || !Parses(next.value, now) {
          return false;
        }
        ParsedSigner(next.value, now);
        var published := PublishRotationTrust(next.value.ca);
        if published.Err? {
          return false;
        }
        var updated := UpdateSecret(copy.version, next.value);
        if updated.Ok? {
          ok := Promote(next.value);
          return;
        }
        if !updated.error.Conflict? {
          return false;
        }
      }
      ok := false;
    }

    method ReadinessCheck(readFails: bool) returns (ready: bool)
      ensures ready <==> !readFails && store.Some? && Parses(store.value, now) && registration == Some(store.value.ca)
    {
      if store.None? {
        return false;
      }
      if !Parses(store.value, now) {
        return false;
      }
      if readFails {
        return false;
      }
      ready := registration == Some(store.value.ca);
    }

    /** The process dies and starts over: only the API server's cells survive. */
    method Restart()
      requires Inv()
      modifies this`store
      ensures Inv() && store.None?
    {
      store := None;
    }

    /**
     The life of one replica: any number of reconciliations, each with its own calls, failures
     and meddling, and any number of crashes.
     */
    method Live(life: seq<Option<seq<Call>>>)
      requires Inv()
      modifies this
      ensures Inv() && (old(alwaysTrusted) ==> alwaysTrusted)
    {
      for i := 0 to |life|
        invariant Inv() && (old(alwaysTrusted) ==> alwaysTrusted)
      {
        if life[i].None? {
          Restart();
        } else {
          script := life[i].value;
          var ok := Ensure();
        }
      }
    }
  }

  /**
   The one state that an undisturbed Ensure leaves unrepaired: a valid Secret whose CA is due for rotation,
   and no registration. The new replica neither serves nor registers anything.
   */
  method RotationNeedsRegistration() returns (ok: bool, lifecycle: Lifecycle)
    ensures !ok && fresh(lifecycle) && lifecycle.store.None?
  {
    var options := Options(90, 30, 30, 10);
    var bundle := Bundle([CA(0, 20)], Leaf(0, 20));
    assert bundle.ca[0].id == 0;
    lifecycle := new Lifecycle(options, None, Holding(bundle), 0, 1);
    lifecycle.script := seq(8, _ => CALM);
    assert Parses(bundle, 0) && lifecycle.RotationBlocked() && lifecycle.Quiet(8);
    ok := lifecycle.Ensure();
  }
}
