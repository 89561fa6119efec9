/**
 Session registry of the media node's DoIP server (MEDIA/doip/tcp_handler.py).

 Each connection has its own coroutine; they interleave at await points only.  A step
 of the model is what one coroutine does between two of them.  The one await inside the
 handling of a request is the sending of its acknowledgement: the request is then kept in
 `pending` until the coroutine is resumed.
 */
module MediaServer {
  import opened Bytes
  import opened MediaHeader

  const KIND_ACTIVATION := 0x0005
  const KIND_ALIVE_RESPONSE := 0x0008
  const KIND_ENTITY_STATUS := 0x4001
  const KIND_DIAGNOSTIC := 0x8001
  const OWN_ADDRESS := 0x0030

  const ACTIVATION_UNKNOWN_SA := 0x00
  const ACTIVATION_SA_IN_USE := 0x03
  const ACTIVATION_SUCCESS := 0x10
  const NACK_UNKNOWN_TYPE := 0x01
  const NACK_LENGTH := 0x04
  const DIAG_INVALID_SA := 0x02
  const DIAG_UNKNOWN_TA := 0x03
  const DIAG_OUT_OF_MEMORY := 0x05

  type Word = x: int | 0 <= x < 0x1_0000

  datatype Request = Request(sa: Word, ta: Word, data: seq<byte>)

  /** What the UDS server behind the sessions answers. */
  type UdsResponse = s: seq<byte> | |s| < 0x1_0000

  datatype Reply =
    | Nothing
    | GenericNack(code: nat)
    | ActivationResponse(sa: nat, code: nat)
    | DiagnosticAck(ta: nat, sa: nat)
    | DiagnosticNack(first: nat, second: nat, code: nat)
    | Response(frame: seq<byte>)
    | EntityStatus(current: nat)

  /** A request handed to the UDS server, and the connection it came from. */
  datatype Served = Served(id: nat, request: Request)

  function ParseRequest(payload: seq<byte>): Option<Request> {
    if |payload| < 4 then None
    else Some(Request(Word16(payload[0], payload[1]), Word16(payload[2], payload[3]), payload[4..]))
  }

  /** The frame that carries a response back: from the address that was asked to the one that asked. */
  function ResponseFrame(r: Request, uds: UdsResponse): seq<byte> {
    BuildFrame(KIND_DIAGNOSTIC, BigEndian16(r.ta) + BigEndian16(r.sa) + uds)
  }

  /** The tester reads from it the UDS response unchanged, from this node and to itself. */
  lemma ResponseIsRead(r: Request, uds: UdsResponse)
    ensures var (header, payload) := ParseFrame(ResponseFrame(r, uds));
            && header == Ok(Header(VERSION, KIND_DIAGNOSTIC, |uds| + 4))
            && ParseRequest(payload) == Some(Request(r.ta, r.sa, uds))
  {
    var payload := BigEndian16(r.ta) + BigEndian16(r.sa) + uds;
    ParseBuilt(KIND_DIAGNOSTIC, payload, []);
    assert BuildFrame(KIND_DIAGNOSTIC, payload) + [] == BuildFrame(KIND_DIAGNOSTIC, payload);
    assert payload[4..] == uds;
  }

  class Session {
    var activated: bool
    var clientSa: Option<nat>
    var pending: Option<Request>

    constructor ()
      ensures !activated && clientSa == None && pending == None
    {
      activated, clientSa, pending := false, None, None;
    }
  }

  /** No session is registered twice. */
  predicate OneEach(m: map<nat, Session>) {
    forall i, j :: i in m && j in m && i != j ==> m[i] != m[j]
  }

  lemma OneMore(m: map<nat, Session>, id: nat, x: Session)
    requires id !in m && OneEach(m) && x !in m.Values
    ensures OneEach(m[id := x]) && |m[id := x]| == |m| + 1
  {
    assert m[id := x].Keys == m.Keys + {id};
    assert |m[id := x].Keys| == |m.Keys| + 1;
  }

  class DoipServer {
    const allowed: set<nat>
    const maxSessions: nat
    // The UDS server.
    const handle: seq<byte> -> UdsResponse

    var sessions: map<nat, Session>
    ghost var served: seq<Served>

    /** An empty list of allowed addresses allows every address. */
    predicate Allowed(sa: nat) { allowed == {} || sa in allowed }

    /** The session is activated for this address. */
    predicate Holds(id: nat, sa: nat)
      reads this, sessions.Values
    {
      id in sessions && sessions[id].activated && sessions[id].clientSa == Some(sa)
    }

    /** Some other session is activated for this address. */
    ghost predicate HeldElsewhere(id: nat, sa: nat)
      reads this, sessions.Values
    {
      exists j :: j in sessions && j != id && sessions[j].activated && sessions[j].clientSa == Some(sa)
    }

    /** The registry is not overfull, and every connection has a session of its own. */
    ghost predicate Distinct()
      reads `sessions
    {
      |sessions| <= maxSessions && OneEach(sessions)
    }

    /** No two activated sessions share an address. */
    ghost predicate Exclusive()
      reads this, sessions.Values
    {
      forall i, j :: i in sessions && j in sessions && i != j && sessions[i].activated && sessions[j].activated ==>
        sessions[i].clientSa != sessions[j].clientSa
    }

    /** What each session may be and wait for. */
    ghost predicate SessionValid(session: Session)
      reads session
    {
      && (session.activated ==> session.clientSa.Some? && Allowed(session.clientSa.value))
      && (session.pending.Some? ==>
            && session.activated && session.clientSa == Some(session.pending.value.sa)
            && session.pending.value.ta == OWN_ADDRESS)
    }

    ghost predicate ServedValid()
      reads `served
    {
      forall k :: 0 <= k < |served| ==> Allowed(served[k].request.sa) && served[k].request.ta == OWN_ADDRESS
    }

    ghost predicate Valid()
      reads this, sessions.Values
    {
      Distinct() && Exclusive() && ServedValid() && forall i :: i in sessions ==> SessionValid(sessions[i])
    }

    constructor (allowed: set<nat>, maxSessions: nat, handle: seq<byte> -> UdsResponse)
      ensures Valid() && sessions == map[] && served == []
      ensures this.allowed == allowed && this.maxSessions == maxSessions && this.handle == handle
    {
      this.allowed, this.maxSessions, this.handle := allowed, maxSessions, handle;
      sessions, served := map[], [];
    }

    /** A new connection gets a session unless the registry is full. */
    method OnClient(id: nat) returns (accepted: bool)
      requires Valid() && id !in sessions
      modifies `sessions
      ensures Valid() && accepted == (|old(sessions)| < maxSessions)
      ensures !accepted ==> sessions == old(sessions)
      ensures accepted ==>
                id in sessions && fresh(sessions[id]) && !sessions[id].activated && sessions - {id} == old(sessions)
    {
      if |sessions| >= maxSessions {
        return false;
      }
      var session := new Session();
      Register(id, session);
      accepted := true;
    }

    method Register(id: nat, session: Session)
      requires Valid() && id !in sessions && session !in sessions.Values && |sessions| < maxSessions
      requires !session.activated && SessionValid(session)
      modifies `sessions
      ensures Valid() && sessions == old(sessions)[id := session]
    {
      hide ServedValid, SessionValid, OneEach;
      OneMore(sessions, id, session);
      sessions := sessions[id := session];
    }

    /** Search the registry for another session that is activated for the address. */
    method FindHolder(id: nat, sa: nat) returns (found: bool)
      ensures found <==> HeldElsewhere(id, sa)
    {
      var rest := sessions.Keys;
      while rest != {}
        invariant rest <= sessions.Keys
        invariant forall j :: j in sessions && j !in rest && j != id ==>
                    !(sessions[j].activated && sessions[j].clientSa == Some(sa))
        decreases rest
      {
        var j :| j in rest;
        rest := rest - {j};
        if j != id && sessions[j].clientSa == Some(sa) && sessions[j].activated {
          return true;
        }
      }
      return false;
    }

    /** An address is activated iff it is allowed and no other session holds it. */
    method HandleRoutingActivation(id: nat, payload: seq<byte>) returns (reply: Reply)
      requires Valid() && id in sessions && sessions[id].pending.None?
      modifies sessions[id]
      ensures Valid() && sessions[id].pending.None?
      ensures |payload| < 7 ==> reply == GenericNack(NACK_LENGTH) && SessionKept(id)
      ensures |payload| >= 7 ==>
                var sa := Word16(payload[0], payload[1]);
                reply == ActivationResponse(sa, if !Allowed(sa) then ACTIVATION_UNKNOWN_SA
                                                else if old(HeldElsewhere(id, sa)) then ACTIVATION_SA_IN_USE
                                                else ACTIVATION_SUCCESS)
      ensures |payload| >= 7 ==>
                var sa := Word16(payload[0], payload[1]);
                if Allowed(sa) && !old(HeldElsewhere(id, sa)) then Holds(id, sa) else SessionKept(id)
    {
      if |payload| < 7 {
        return GenericNack(NACK_LENGTH);
      }
      var sa := Word16(payload[0], payload[1]);
      if !Allowed(sa) {
        return ActivationResponse(sa, ACTIVATION_UNKNOWN_SA);
      }
      var found := FindHolder(id, sa);
      if found {
        return ActivationResponse(sa, ACTIVATION_SA_IN_USE);
      }
      Activate(id, sa);
      return ActivationResponse(sa, ACTIVATION_SUCCESS);
    }

    twostate predicate SessionKept(id: nat)
      requires id in old(sessions) && id in sessions
      reads `sessions, sessions.Values
    {
      sessions[id].activated == old(sessions[id].activated) && sessions[id].clientSa == old(sessions[id].clientSa)
    }

    method Activate(id: nat, sa: nat)
      requires Valid() && id in sessions && sessions[id].pending.None? && Allowed(sa) && !HeldElsewhere(id, sa)
      modifies sessions[id]
      ensures Valid() && sessions[id].pending.None? && Holds(id, sa)
    {
      sessions[id].clientSa := Some(sa);
      sessions[id].activated := true;
    }

    /** A diagnostic message up to its acknowledgement. */
    method HandleDiagnostic(id: nat, payload: seq<byte>) returns (reply: Reply)
      requires Valid() && id in sessions && sessions[id].pending.None?
      modifies sessions[id]
      ensures Valid()
      ensures sessions[id].activated == old(sessions[id].activated) && sessions[id].clientSa == old(sessions[id].clientSa)
      ensures sessions[id].pending.Some? <==>
                ParseRequest(payload).Some? && Holds(id, ParseRequest(payload).value.sa)
                && ParseRequest(payload).value.ta == OWN_ADDRESS
      ensures sessions[id].pending.Some? ==>
                && sessions[id].pending == ParseRequest(payload)
                && reply == DiagnosticAck(OWN_ADDRESS, sessions[id].pending.value.sa)
      ensures ParseRequest(payload).None? ==> reply == GenericNack(NACK_LENGTH)
      ensures ParseRequest(payload).Some? && sessions[id].pending.None? ==>
                var r := ParseRequest(payload).value;
                reply == if !sessions[id].activated then DiagnosticNack(r.sa, r.ta, DIAG_OUT_OF_MEMORY)
                         else if !Holds(id, r.sa) then DiagnosticNack(r.sa, r.ta, DIAG_INVALID_SA)
                         else DiagnosticNack(r.ta, r.sa, DIAG_UNKNOWN_TA)
    {
      var request := ParseRequest(payload);
      if !sessions[id].activated {
        return if request.None? then GenericNack(NACK_LENGTH)
               else DiagnosticNack(request.value.sa, request.value.ta, DIAG_OUT_OF_MEMORY);
      }
      if request.None? {
        return GenericNack(NACK_LENGTH);
      }
      if Some(request.value.sa) != sessions[id].clientSa {
        return DiagnosticNack(request.value.sa, request.value.ta, DIAG_INVALID_SA);
      }
      if request.value.ta != OWN_ADDRESS {
        return DiagnosticNack(request.value.ta, request.value.sa, DIAG_UNKNOWN_TA);
      }
      sessions[id].pending := request;
      return DiagnosticAck(request.value.ta, request.value.sa);
    }

    /** The acknowledgement is out: serve the request.  Whatever other sessions did meanwhile, this
        one is still activated for the address that sent it, and is the only one. */
    method Resume(id: nat) returns (reply: Reply)
      requires Valid() && id in sessions && sessions[id].pending.Some?
      modifies `served, sessions[id]
      ensures Valid() && sessions[id].pending.None?
      ensures sessions[id].activated == old(sessions[id].activated) && sessions[id].clientSa == old(sessions[id].clientSa)
      ensures served == old(served) + [Served(id, old(sessions[id].pending.value))]
      ensures Holds(id, served[|served| - 1].request.sa) && !HeldElsewhere(id, served[|served| - 1].request.sa)
      ensures Allowed(served[|served| - 1].request.sa)
      ensures var request := old(sessions[id].pending.value);
              reply == Response(ResponseFrame(request, handle(request.data)))
    {
      var request := sessions[id].pending.value;
      assert Holds(id, request.sa);
      served := served + [Served(id, request)];
      sessions[id].pending := None;
      return Response(ResponseFrame(request, handle(request.data)));
    }

    /** One frame of a connection: only an activation request can activate the session, and only a
        diagnostic message of the session's own address can lead to a service. */
    method Dispatch(id: nat, kind: nat, payload: seq<byte>) returns (reply: Reply)
      requires Valid() && id in sessions && sessions[id].pending.None?
      modifies sessions[id]
      ensures Valid()
      ensures kind == 0x0005 && |payload| >= 7 ==>
                var sa := Word16(payload[0], payload[1]);
                var granted := Allowed(sa) && !old(HeldElsewhere(id, sa));
                && reply == ActivationResponse(sa, if !Allowed(sa) then 0x00 else if !granted then 0x03 else 0x10)
                && sessions[id].activated == (old(sessions[id].activated) || granted)
                && sessions[id].clientSa == (if granted then Some(sa) else old(sessions[id].clientSa))
      ensures kind == 0x0005 && |payload| < 7 ==> reply == GenericNack(0x04)
      ensures kind != 0x0005 || |payload| < 7 ==>
                sessions[id].activated == old(sessions[id].activated) && sessions[id].clientSa == old(sessions[id].clientSa)
      ensures kind == 0x0008 ==> reply == Nothing
      ensures kind == 0x8001 && |payload| >= 4 ==>
                var sa, ta := Word16(payload[0], payload[1]), Word16(payload[2], payload[3]);
                && reply == (if !sessions[id].activated then DiagnosticNack(sa, ta, 0x05)
                             else if sessions[id].clientSa != Some(sa) then DiagnosticNack(sa, ta, 0x02)
                             else if ta != 0x0030 then DiagnosticNack(ta, sa, 0x03)
                             else DiagnosticAck(ta, sa))
                && sessions[id].pending == (if reply.DiagnosticAck? then Some(Request(sa, ta, payload[4..])) else None)
      ensures kind == 0x8001 && |payload| < 4 ==> reply == GenericNack(0x04)
      ensures kind != 0x8001 || |payload| < 4 ==> sessions[id].pending.None?
      ensures kind == 0x4001 ==> reply == EntityStatus(|sessions|)
      ensures kind !in {0x0005, 0x0008, 0x8001, 0x4001} ==> reply == GenericNack(0x01)
    {
      if kind == KIND_ACTIVATION {
        reply := HandleRoutingActivation(id, payload);
      } else if kind == KIND_ALIVE_RESPONSE {
        return Nothing;
      } else if kind == KIND_DIAGNOSTIC {
        reply := HandleDiagnostic(id, payload);
      } else if kind == KIND_ENTITY_STATUS {
        return EntityStatus(|sessions|);
      } else {
        return GenericNack(NACK_UNKNOWN_TYPE);
      }
    }

    /** The connection is gone; its address becomes free. */
    method Cleanup(id: nat)
      requires Valid() && id in sessions
      modifies `sessions
      ensures Valid() && sessions == old(sessions) - {id}
      ensures forall sa :: !Holds(id, sa)
    {
      sessions := sessions - {id};
    }
  }
}
