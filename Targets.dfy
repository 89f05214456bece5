/** Target strings and the add/remove target messages sent to a site agent
    (server/routers/client/targets.ts).  The same `port:ip:destPort` encoding is
    used by the get-config handler for a site's target lists. */
module Targets {
  import opened Common
  import opened Store

  /** `${port}:${destinationIp}:${destinationPort}`. */
  function TargetString(port: int, destinationIp: string, destinationPort: int): string {
    IntToString(port) + ":" + destinationIp + ":" + IntToString(destinationPort)
  }

  /** The three fields a target string carries. */
  datatype TargetFields = TargetFields(port: int, destinationIp: string, destinationPort: int)

  /** Everything after the last `c` of `s`, or all of `s` when it has none. */
  function SuffixAfterLast(s: string, c: char): (r: string)
    ensures |r| <= |s| && r == s[|s| - |r|..]
    ensures c !in r
    ensures |r| < |s| ==> s[|s| - |r| - 1] == c
  {
    if s == [] then []
    else if s[|s| - 1] == c then []
    else SuffixAfterLast(s[..|s| - 1], c) + [s[|s| - 1]]
  }

  /** Reads a target string back: the port before the first `:`, the
      destination port after the last `:`, the address in between (which may
      itself hold colons, as an IPv6 address does). */
  function DecodeTarget(s: string): Option<TargetFields> {
    var head := PrefixBefore(s, ':');
    if |head| == |s| then None
    else
      var rest := s[|head| + 1..];
      var tail := SuffixAfterLast(rest, ':');
      if |tail| == |rest| then None
      else
        var port := ParseInt(head);
        var destinationPort := ParseInt(tail);
        if port.None? || destinationPort.None? then None
        else Some(TargetFields(port.value, rest[..|rest| - |tail| - 1], destinationPort.value))
  }

  lemma {:induction false} SuffixAfterLastSeparator(a: string, b: string, c: char)
    requires c !in b
    requires a != [] && a[|a| - 1] == c
    ensures SuffixAfterLast(a + b, c) == b
  {
    if b != [] {
      var s := a + b;
      assert s[..|s| - 1] == a + b[..|b| - 1];
      assert c !in b[..|b| - 1];
      SuffixAfterLastSeparator(a, b[..|b| - 1], c);
      assert b == b[..|b| - 1] + [b[|b| - 1]];
    } else {
      assert a + b == a;
    }
  }

  /** Decoding a string with a colon-free head and tail reads the head and the
      tail as the two ports and everything between them as the address. */
  lemma DecodeParts(a: string, mid: string, b: string)
    requires ':' !in a && ':' !in b
    ensures DecodeTarget(a + ":" + mid + ":" + b)
         == if ParseInt(a).Some? && ParseInt(b).Some?
            then Some(TargetFields(ParseInt(a).value, mid, ParseInt(b).value)) else None
  {
    var s := a + ":" + mid + ":" + b;
    var rest := mid + ":" + b;
    assert s == a + (":" + rest);
    PrefixBeforeSeparator(a, ":" + rest, ':');
    assert s[|a| + 1..] == rest;
    assert rest == (mid + ":") + b;
    SuffixAfterLastSeparator(mid + ":", b, ':');
    assert rest[..|rest| - |b| - 1] == mid;
  }

  /** The encoding is unambiguous: every target string decodes to the fields it was built from. */
  lemma TargetStringRoundTrip(port: int, destinationIp: string, destinationPort: int)
    ensures DecodeTarget(TargetString(port, destinationIp, destinationPort))
         == Some(TargetFields(port, destinationIp, destinationPort))
  {
    DecodeParts(IntToString(port), destinationIp, IntToString(destinationPort));
    IntToStringRoundTrip(port);
    IntToStringRoundTrip(destinationPort);
  }

  /** `addTargets`: the one message sent to the site agent `newtId`. */
  function AddTargets(newtId: string, destinationIp: string, destinationPort: int, protocol: string, port: int): (c: Call)
    ensures c.SendToClient? && c.recipient == newtId
    ensures MessageType(c.message) == "newt/wg/" + protocol + "/add"
    ensures c.message.TargetUpdate? && c.message.targets == [TargetString(port, destinationIp, destinationPort)]
    ensures DecodeTarget(c.message.targets[0]) == Some(TargetFields(port, destinationIp, destinationPort))
  {
    var target := TargetString(port, destinationIp, destinationPort);
    TargetStringRoundTrip(port, destinationIp, destinationPort);
    var m := TargetUpdate(protocol, Add, [target]);
    assert MessageType(m) == "newt/wg/" + protocol + "/add";
    SendToClient(newtId, m)
  }

  /** `removeTargets`: the same target string, under the remove message type. */
  function RemoveTargets(newtId: string, destinationIp: string, destinationPort: int, protocol: string, port: int): (c: Call)
    ensures c.SendToClient? && c.recipient == newtId
    ensures MessageType(c.message) == "newt/wg/" + protocol + "/remove"
    ensures c.message.TargetUpdate? && c.message.targets == [TargetString(port, destinationIp, destinationPort)]
    ensures DecodeTarget(c.message.targets[0]) == Some(TargetFields(port, destinationIp, destinationPort))
  {
    var target := TargetString(port, destinationIp, destinationPort);
    TargetStringRoundTrip(port, destinationIp, destinationPort);
    var m := TargetUpdate(protocol, Remove, [target]);
    assert MessageType(m) == "newt/wg/" + protocol + "/remove";
    SendToClient(newtId, m)
  }

  /** Removing with the arguments of an add names exactly the target that was added. */
  lemma RemoveUndoesAdd(newtId: string, destinationIp: string, destinationPort: int, protocol: string, port: int)
    ensures RemoveTargets(newtId, destinationIp, destinationPort, protocol, port).message.targets
         == AddTargets(newtId, destinationIp, destinationPort, protocol, port).message.targets
    ensures RemoveTargets(newtId, destinationIp, destinationPort, protocol, port).message.protocol
         == AddTargets(newtId, destinationIp, destinationPort, protocol, port).message.protocol
  {
  }
}
