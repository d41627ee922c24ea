/**
 The receiver process: the handler of each connection between two waits, driving the shared registry.
 `world` is the process's past as the theorems see it.
 */
module RelayReceivers {
  import opened Prelude
  import opened Base64
  import opened Json
  import opened Messages
  import opened Enrollment
  import opened Sessions
  import opened SessionTelemetry
  import opened Registry
  import opened Receiver

  function FrameOf(h: nat, reply: Option<Json>): seq<Frame>
  {
    match reply case None => [] case Some(document) => [Frame(h, document)]
  }

  class RelayReceiver {
    const env: Env
    const registry: RelaySnapshotRegistry
    var phases: seq<Phase>
    var errors: nat
    ghost var world: World

    ghost predicate Valid()
      reads this, registry
    {
      && registry.deviceIds == env.devices.Keys
      && world.registry == registry.View() && world.phases == phases && world.errors == errors
    }

    constructor (env: Env, staleAfter: int)
      ensures Valid() && world == NEW_WORLD && this.env == env && fresh(registry)
    {
      this.env := env;
      registry := new RelaySnapshotRegistry(env.devices.Keys, staleAfter);
      phases, errors, world := [], 0, NEW_WORLD;
    }

    method Accept() returns (h: nat)
      requires Valid()
      modifies this
      ensures Valid() && world == Next(env, old(world), Connect) && h == |old(world).phases|
    {
      h := |phases|;
      phases := phases + [AwaitingHello];
      world := Next(env, world, Connect);
    }

    /** The `finally` of the handler: an open session is closed, once. */
    method Close(h: nat, failed: bool)
      requires Valid() && h < |phases|
      modifies this, registry
      ensures Valid() && world == End(old(world), h, if failed then 1 else 0)
    {
      if failed {
        errors := errors + 1;
      }
      var session := Counted(phases[h]);
      if session.Some? {
        registry.SessionClosed(session.value);
      }
      phases := phases[h := Ended];
      world := End(world, h, if failed then 1 else 0);
    }

    /** Each step of a handler returns the frame it writes, if any. */
    method OnHello(h: nat, document: Json, sessionId: string, nonce: Bytes, now: int) returns (reply: Option<Json>)
      requires Valid() && Legal(env, world, Hello(h, document, sessionId, nonce, now))
      modifies this, registry
      ensures Valid() && world == Next(env, old(world), Hello(h, document, sessionId, nonce, now))
      ensures world.written == old(world).written + FrameOf(h, reply)
    {
      var deviceId := HelloOf(document);
      if deviceId == None || deviceId.value !in env.devices {
        Close(h, true);
        return None;
      }
      var challenge := NewSession(deviceId.value, env.relayId, sessionId, nonce, now);
      phases := phases[h := Challenged(challenge)];
      world := SendChallenge(world, h, document, challenge);
      return Some(ChallengeDocument(challenge));
    }

    method OnAuthentication(h: nat, document: Json, signed: Signatures, now: int) returns (reply: Option<Json>)
      requires Valid() && Legal(env, world, Authenticate(h, document, now)) && signed == world.signed
      modifies this, registry
      ensures Valid() && world == Next(env, old(world), Authenticate(h, document, now))
      ensures world.written == old(world).written + FrameOf(h, reply)
    {
      var challenge := phases[h].challenge;
      var proof := AuthVerdict(env, signed, document, challenge, now);
      if proof == None {
        Close(h, true);
        return None;
      }
      OpenSession(h, challenge, proof.value, now);
      return Some(ReadyDocument(challenge.sessionId, challenge.relayId, now));
    }

    method OpenSession(h: nat, challenge: SessionChallenge, proof: Message, now: int)
      requires Valid() && h < |phases|
      modifies this, registry
      ensures Valid() && world == Admit(old(world), h, challenge, proof, now)
    {
      registry.SessionOpened(challenge.audience);
      phases := phases[h := Open(challenge, proof)];
      world := Admit(world, h, challenge, proof, now);
    }

    method OnTelemetry(h: nat, document: Json, now: int) returns (reply: Option<Json>)
      requires Valid() && Legal(env, world, Telemetry(h, document, now))
      modifies this, registry
      ensures Valid() && world == Next(env, old(world), Telemetry(h, document, now))
      ensures world.written == old(world).written + FrameOf(h, reply)
    {
      var challenge, proof := phases[h].challenge, phases[h].proof;
      var snapshot := AcceptTelemetry(env.lower, document, challenge.sessionId);
      if snapshot == None {
        Close(h, true);
        return None;
      }
      var enrolled := registry.PublishSnapshot(challenge.audience, 1, snapshot.value, now);
      if !enrolled {
        Close(h, true);
        return None;
      }
      Acknowledge(h, PublicationOf(h, challenge, proof, SnapshotOf(document), snapshot.value, now));
      return Some(AckDocument(challenge.sessionId));
    }

    /** The registry already holds the published record; the handler goes on to acknowledge it. */
    method Acknowledge(h: nat, p: Publication)
      requires h < |phases| && registry.deviceIds == env.devices.Keys
      requires registry.View() == Publish(world.registry, p.record) && world.phases == phases && world.errors == errors
      modifies this
      ensures Valid() && world == Store(old(world), h, p)
    {
      phases := phases[h := Acknowledging(p.challenge, p.proof)];
      world := Store(world, h, p);
    }

    method OnAcknowledged(h: nat)
      requires Valid() && Legal(env, world, Finish(h))
      modifies this, registry
      ensures Valid() && world == Next(env, old(world), Finish(h))
    {
      Close(h, false);
    }

    /** A timeout, a closed connection or a bad frame counts as an error; a cancelled handler does not. */
    method OnDrop(h: nat, counted: bool)
      requires Valid() && Legal(env, world, Drop(h, counted))
      modifies this, registry
      ensures Valid() && world == Next(env, old(world), Drop(h, counted))
    {
      Close(h, counted);
    }
  }
}
