/** The version handshake of one peer session: which messages are acted on, over every
    sequence of messages a peer can send. */
module Handshake {
  import opened Common
  import opened Wire

  /** `Other` is every command but `version` and `verack`; `fails` says that its handler
      returns an error, which ends the session. */
  datatype Message = Version(payload: Bytes) | Verack | Other(name: string, fails: bool)

  /** `acted` lists the other messages whose handlers ran. */
  datatype Session = Session(open: bool, sentVerack: bool, sawVerack: bool, version: Option<int>, acted: seq<Message>)

  /** The first four bytes as a signed word; 0 if there are not that many. */
  function RemoteVersion(payload: Bytes): int {
    if |payload| < 4 then 0 else
      var word := FromLE(payload[..4]);
      if word < 0x8000_0000 then word else word - 0x1_0000_0000
  }

  /** Two's complement, lowest byte first: the top byte counts negative from 128 on. */
  lemma {:induction false} VersionBytes(payload: Bytes)
    ensures |payload| < 4 ==> RemoteVersion(payload) == 0
    ensures |payload| >= 4 ==>
              var a: int, b: int, c: int, d: int := payload[0], payload[1], payload[2], payload[3];
              RemoteVersion(payload) == a + 0x100 * b + 0x1_0000 * c + 0x100_0000 * (if d < 128 then d else d - 256)
  {
    if |payload| >= 4 {
      var b := payload[..4];
      assert b[1..][1..] == b[2..] && b[2..][1..] == b[3..] && b[3..][1..] == [];
      assert FromLE(b[3..]) == b[3];
      assert FromLE(b[2..]) == b[2] + 0x100 * FromLE(b[3..]);
      assert FromLE(b) == b[0] + 0x100 * (b[1] + 0x100 * FromLE(b[2..]));
    }
  }

  function Opened(): Session {
    Session(true, false, false, None, [])
  }

  function Step(minimum: int, s: Session, m: Message): Session {
    if !s.open then s
    else match m
      case Version(payload) =>
        if s.sentVerack || RemoteVersion(payload) < minimum then s.(open := false)
        else s.(sentVerack := true, version := Some(RemoteVersion(payload)))
      case Verack => if !s.sentVerack || s.sawVerack then s.(open := false) else s.(sawVerack := true)
      case Other(_, fails) =>
        if !s.sentVerack || !s.sawVerack then s.(open := false)
        else s.(acted := s.acted + [m], open := !fails)
  }

  function After(minimum: int, messages: seq<Message>): Session {
    if messages == [] then Opened() else
      var n := |messages| - 1;
      Step(minimum, After(minimum, messages[..n]), messages[n])
  }

  /** The read loop of `run_peer`, up to the end of the session or of the input. */
  method RunPeer(minimum: int, messages: seq<Message>) returns (s: Session)
    ensures s == After(minimum, messages)
  {
    var open, sentVerack, sawVerack, version: Option<int>, acted: seq<Message>, i := true, false, false, None, [], 0;
    while open && i < |messages|
      invariant 0 <= i <= |messages|
      invariant Session(open, sentVerack, sawVerack, version, acted) == After(minimum, messages[..i])
    {
      var m := messages[i];
      assert messages[..i + 1][..i] == messages[..i];
      if (!sentVerack || !sawVerack) && m.Other? {
        open := false;
      } else {
        match m {
          case Version(payload) =>
            var remote := RemoteVersion(payload);
            if sentVerack || remote < minimum {
              open := false;
            } else {
              sentVerack, version := true, Some(remote);
            }
          case Verack =>
            if !sentVerack || sawVerack {
              open := false;
            } else {
              sawVerack := true;
            }
          case Other(_, fails) =>
            acted, open := acted + [m], !fails;
        }
      }
      i := i + 1;
    }
    s := Session(open, sentVerack, sawVerack, version, acted);
    assert messages[..|messages|] == messages;
    if i < |messages| {
      ClosedStays(minimum, messages, i);
    }
  }

  lemma {:induction false} ClosedStays(minimum: int, messages: seq<Message>, i: nat)
    requires i <= |messages| && !After(minimum, messages[..i]).open
    ensures After(minimum, messages) == After(minimum, messages[..i])
    decreases |messages|
  {
    if i < |messages| {
      var n := |messages| - 1;
      assert messages[..n][..i] == messages[..i];
      ClosedStays(minimum, messages[..n], i);
    } else {
      assert messages[..i] == messages;
    }
  }

  // ---------------------------------------------------------------------------
  // The language of sessions

  predicate Admitted(minimum: int, m: Message) {
    m.Version? && RemoteVersion(m.payload) >= minimum
  }

  /** A session in good standing: a version at or above the floor, one verack, and then
      anything but those two that is handled without error. */
  predicate GoodStanding(minimum: int, messages: seq<Message>) {
    && (|messages| >= 1 ==> Admitted(minimum, messages[0]))
    && (|messages| >= 2 ==> messages[1].Verack?)
    && forall i :: 2 <= i < |messages| ==> messages[i].Other? && !messages[i].fails
  }

  /** The session is open exactly in good standing, and then everything after the
      handshake was acted on, under the version that came first. */
  lemma {:induction false} OpenIsGoodStanding(minimum: int, messages: seq<Message>)
    ensures After(minimum, messages).open <==> GoodStanding(minimum, messages)
    ensures GoodStanding(minimum, messages) ==>
              After(minimum, messages) ==
              Session(true, |messages| >= 1, |messages| >= 2,
                      if messages == [] then None else Some(RemoteVersion(messages[0].payload)),
                      if |messages| <= 2 then [] else messages[2..])
  {
    if messages != [] {
      var n := |messages| - 1;
      var before := messages[..n];
      OpenIsGoodStanding(minimum, before);
      assert forall i :: 0 <= i < n ==> before[i] == messages[i];
      assert GoodStanding(minimum, messages) ==> GoodStanding(minimum, before);
      if n >= 2 {
        assert messages[2..] == before[2..] + [messages[n]];
      }
    }
  }

  /** What was acted on came right after one admitted version and one verack, in order
      and without a gap, and the admitted version is that first one. */
  ghost predicate AfterHandshake(minimum: int, messages: seq<Message>, s: Session) {
    && (s.acted != [] ==> |messages| >= 2 + |s.acted| && Admitted(minimum, messages[0]) && messages[1].Verack?
                          && s.acted == messages[2..2 + |s.acted|])
    && (forall i :: 0 <= i < |s.acted| ==> s.acted[i].Other?)
    && (s.version.Some? ==> messages != [] && Admitted(minimum, messages[0])
                            && s.version.value == RemoteVersion(messages[0].payload))
  }

  lemma {:induction false} StillAfterHandshake(minimum: int, messages: seq<Message>, m: Message, s: Session)
    requires AfterHandshake(minimum, messages, s)
    ensures AfterHandshake(minimum, messages + [m], s)
  {
    if s.acted != [] {
      assert (messages + [m])[2..2 + |s.acted|] == messages[2..2 + |s.acted|];
    }
  }

  lemma {:induction false} OpenStep(minimum: int, messages: seq<Message>, m: Message)
    requires After(minimum, messages).open && AfterHandshake(minimum, messages, After(minimum, messages))
    ensures AfterHandshake(minimum, messages + [m], Step(minimum, After(minimum, messages), m))
  {
    hide After, RemoteVersion;
    var s := After(minimum, messages);
    StillAfterHandshake(minimum, messages, m, s);
    OpenIsGoodStanding(minimum, messages);
    if m.Other? && |messages| >= 2 {
      assert messages[2..] + [m] == (messages + [m])[2..];
      assert (messages + [m])[2..] == (messages + [m])[2..2 + |s.acted| + 1];
    }
  }

  /** So it is in every session, however it goes on: a message that would change the
      admitted version ends the session. */
  lemma {:induction false} ActedOnlyAfterHandshake(minimum: int, messages: seq<Message>)
    ensures AfterHandshake(minimum, messages, After(minimum, messages))
  {
    hide AfterHandshake;
    if messages == [] {
      NothingActed(minimum);
    } else {
      var n := |messages| - 1;
      var before := messages[..n];
      ActedOnlyAfterHandshake(minimum, before);
      assert before + [messages[n]] == messages;
      if After(minimum, before).open {
        OpenStep(minimum, before, messages[n]);
      } else {
        StillAfterHandshake(minimum, before, messages[n], After(minimum, before));
      }
    }
  }

  lemma {:induction false} NothingActed(minimum: int)
    ensures AfterHandshake(minimum, [], Opened())
  {
  }
}
