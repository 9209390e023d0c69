// What a message costs on the wire, and the shares the 24 kbps cap is split into.
module Wire {
  import opened LinkHistory

  const FRAME_OVERHEAD := 24
  const TCP_HEADERS := 66
  const LINK_MTU := 576
  const MSS := LINK_MTU - 52

  const CAP_BYTES := 3000
  const ONBOARD_SHARE: nat := 1600
  const GROUND_SHARE: nat := 1150
  const UNACCOUNTED: nat := 250
  const WINDOW := 1.0

  // The onboard counts segments, every one with its headers...
  function TcpSegmentCount(payload: nat): nat {
    if payload == 0 then 1 else (payload + MSS - 1) / MSS
  }

  function TcpBytes(payload: nat): nat {
    TcpSegmentCount(payload) * (TCP_HEADERS + FRAME_OVERHEAD) + payload
  }

  // ...the ground station full segments and a rest.
  function TcpSegment(payload: int): nat {
    var bytes := if payload < 0 then 0 else payload;
    var full, rest := bytes / MSS, bytes % MSS;
    full * (TCP_HEADERS + MSS + FRAME_OVERHEAD)
    + if rest != 0 || full == 0 then TCP_HEADERS + rest + FRAME_OVERHEAD else 0
  }

  lemma BothSidesCountAlike(payload: nat)
    ensures TcpSegment(payload) == TcpBytes(payload)
  {
    var full, rest := payload / MSS, payload % MSS;
    assert payload == full * MSS + rest;
    if rest == 0 {
      assert (payload + MSS - 1) / MSS == full;
    } else {
      assert (payload + MSS - 1) / MSS == full + 1;
    }
  }

  // Each segment is a frame of at most the capped size, and no fewer segments carry the payload.
  lemma SegmentsAreEnough(payload: nat)
    ensures payload <= TcpSegmentCount(payload) * MSS
    ensures payload > 0 ==> (TcpSegmentCount(payload) - 1) * MSS < payload
  {
  }

  // Both ledgers together, and the traffic neither schedules, stay within the
  // cap in every one-second window.
  lemma LinkStaysUnderTheCap(onboard: History, ground: History, wireO: seq<Emission>, wireG: seq<Emission>,
                             unaccounted: nat, t: real)
    requires Inv(onboard, ONBOARD_SHARE, WINDOW) && Covered(onboard, wireO)
    requires Inv(ground, GROUND_SHARE, WINDOW) && Covered(ground, wireG)
    requires unaccounted <= UNACCOUNTED
    ensures WindowBytes(wireO, t, WINDOW) + WindowBytes(wireG, t, WINDOW) + unaccounted <= CAP_BYTES
  {
    NoWindowExceedsShare(onboard, wireO, ONBOARD_SHARE, WINDOW, t);
    NoWindowExceedsShare(ground, wireG, GROUND_SHARE, WINDOW, t);
  }
}
