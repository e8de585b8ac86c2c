/**
 The semantic identities by which inbound frames are matched with their acknowledgements.

 The hash is a parameter.  Nothing is assumed of it beyond its 32-byte output; where a theorem
 needs it not to collide, it says so for the two texts at hand.
 */
module MessageIdentity {
  import opened Bytes
  import opened CanonicalJson

  type Digest = d: seq<Byte> | |d| == 32 witness seq(32, _ => 0)

  type Hash = seq<Byte> -> Digest

  datatype RequestId = NullId | NumberId(number: int) | StringId(text: seq<Byte>)

  /** The outcome a response carries; an error is represented by its JSON form. */
  datatype Reply = Success(value: Json) | Failure(error: Json)

  datatype Message =
    | Request(id: RequestId, requestMethod: seq<Byte>)
    | Notification(notificationMethod: seq<Byte>, params: Json)
    | Response(replyTo: RequestId, reply: Reply)

  function Ascii(s: string): (r: seq<Byte>)
  {
    seq(|s|, i requires 0 <= i < |s| => s[i] as int % 256)
  }

  function Hex(bytes: seq<Byte>): (r: seq<Byte>)
    ensures |r| == 2 * |bytes|
  {
    if |bytes| == 0 then [] else [HexDigit(bytes[0] / 16), HexDigit(bytes[0] % 16)] + Hex(bytes[1..])
  }

  lemma {:induction false} HexIsInjective(a: seq<Byte>, b: seq<Byte>)
    requires Hex(a) == Hex(b)
    ensures a == b
  {
    assert |Hex(a)| == |Hex(b)|;
    if |a| > 0 {
      assert Hex(a)[0] == Hex(b)[0] && Hex(a)[1] == Hex(b)[1];
      assert Hex(a)[2..] == Hex(a[1..]) && Hex(b)[2..] == Hex(b[1..]);
      HexIsInjective(a[1..], b[1..]);
      assert a == [a[0]] + a[1..] && b == [b[0]] + b[1..];
    }
  }

  function IdText(id: RequestId): (r: seq<Byte>)
  {
    match id
    case NullId => TEXT_NULL
    case NumberId(n) => PrintNumber(Int(n))
    case StringId(t) => PrintString(t)
  }

  function RequestIdentity(id: RequestId, name: seq<Byte>): (r: seq<Byte>)
  {
    Ascii("request:") + IdText(id) + [COLON] + name
  }

  /** What is hashed for a notification: tag, method and canonical parameters, separated by NUL. */
  function NotificationPreimage(name: seq<Byte>, params: Json): (r: seq<Byte>)
  {
    Ascii("notification") + [NUL] + name + [NUL] + Print(params)
  }

  function NotificationIdentity(hash: Hash, name: seq<Byte>, params: Json): (r: seq<Byte>)
  {
    Ascii("notification:") + name + Ascii(":sha256:") + Hex(hash(NotificationPreimage(name, params)))
  }

  function ReplyKind(reply: Reply): (r: seq<Byte>)
  {
    if reply.Success? then Ascii("result") else Ascii("error")
  }

  function ReplyBody(reply: Reply): (r: Json)
  {
    match reply
    case Success(value) => value
    case Failure(error) => error
  }

  function ResponsePreimage(reply: Reply): (r: seq<Byte>)
  {
    ReplyKind(reply) + [NUL] + Print(ReplyBody(reply))
  }

  function ResponseIdentity(hash: Hash, reply: Reply): (r: seq<Byte>)
  {
    Ascii("response:") + ReplyKind(reply) + Ascii(":sha256:") + Hex(hash(ResponsePreimage(reply)))
  }

  function PhysicalIdentity(hash: Hash, message: Message): (r: seq<Byte>)
  {
    match message
    case Request(id, name) => RequestIdentity(id, name)
    case Notification(name, params) => NotificationIdentity(hash, name, params)
    case Response(_, reply) => ResponseIdentity(hash, reply)
  }

  /** The texts of the identities and of what is hashed. */
  lemma IdentityTexts(hash: Hash, name: seq<Byte>, params: Json, value: Json)
    ensures NotificationPreimage(name, params) == Ascii("notification") + [0] + name + [0] + Print(params)
    ensures ResponsePreimage(Success(value)) == Ascii("result") + [0] + Print(value)
    ensures ResponsePreimage(Failure(value)) == Ascii("error") + [0] + Print(value)
    ensures ResponseIdentity(hash, Success(value)) == Ascii("response:result:sha256:") + Hex(hash(Ascii("result") + [0] + Print(value)))
    ensures ResponseIdentity(hash, Failure(value)) == Ascii("response:error:sha256:") + Hex(hash(Ascii("error") + [0] + Print(value)))
    ensures RequestIdentity(NullId, name) == Ascii("request:null:") + name
  {
    hide Print, Hex;
    assert Ascii("response:result:sha256:") == Ascii("response:") + Ascii("result") + Ascii(":sha256:");
    assert Ascii("response:error:sha256:") == Ascii("response:") + Ascii("error") + Ascii(":sha256:");
    assert Ascii("request:null:") == Ascii("request:") + TEXT_NULL + [COLON];
  }

  /** Splitting at the last NUL is unambiguous, even when the left part contains NULs. */
  lemma LastNulSplits(a: seq<Byte>, x: seq<Byte>, b: seq<Byte>, y: seq<Byte>)
    requires NUL !in x && NUL !in y
    requires a + [NUL] + x == b + [NUL] + y
    ensures a == b && x == y
  {
    var s, t := a + [NUL] + x, b + [NUL] + y;
    assert s[|a|] == NUL && t[|b|] == NUL;
    assert forall i | |a| < i < |s| :: s[i] == x[i - |a| - 1];
    assert forall i | |b| < i < |t| :: t[i] == y[i - |b| - 1];
    assert |a| == |b|;
    assert a == s[..|a|] && b == t[..|b|];
    assert x == s[|a| + 1..] && y == t[|b| + 1..];
  }

  lemma SuffixOf64(a: seq<Byte>, x: seq<Byte>, b: seq<Byte>, y: seq<Byte>)
    requires |x| == |y| == 64 && a + x == b + y
    ensures a == b && x == y
  {
    assert |a| == |b|;
    assert a == (a + x)[..|a|] && b == (b + y)[..|b|];
    assert x == (a + x)[|a|..] && y == (b + y)[|b|..];
  }

  /** Equal digests in two identities of the same shape come from equal hashed texts. */
  lemma DigestsAgree(hash: Hash, a: seq<Byte>, p: seq<Byte>, b: seq<Byte>, q: seq<Byte>)
    requires hash(p) == hash(q) ==> p == q
    requires a + Hex(hash(p)) == b + Hex(hash(q))
    ensures a == b && p == q
  {
    SuffixOf64(a, Hex(hash(p)), b, Hex(hash(q)));
    HexIsInjective(hash(p), hash(q));
  }

  /** Notification identities coincide exactly when method and parameters do, up to member order. */
  lemma NotificationIdentityIsSemantic(hash: Hash, name1: seq<Byte>, params1: Json, name2: seq<Byte>, params2: Json)
    requires WellFormed(params1) && WellFormed(params2)
    requires var p, q := NotificationPreimage(name1, params1), NotificationPreimage(name2, params2);
             hash(p) == hash(q) ==> p == q
    ensures NotificationIdentity(hash, name1, params1) == NotificationIdentity(hash, name2, params2)
       <==> name1 == name2 && Same(params1, params2)
  {
    PrintIsCanonical(params1, params2);
    PrintHasNoNul(params1);
    PrintHasNoNul(params2);
    if NotificationIdentity(hash, name1, params1) == NotificationIdentity(hash, name2, params2) {
      var tag := Ascii("notification") + [NUL];
      DigestsAgree(hash, Ascii("notification:") + name1 + Ascii(":sha256:"), NotificationPreimage(name1, params1),
                   Ascii("notification:") + name2 + Ascii(":sha256:"), NotificationPreimage(name2, params2));
      LastNulSplits(tag + name1, Print(params1), tag + name2, Print(params2));
      assert name1 == (tag + name1)[|tag|..] && name2 == (tag + name2)[|tag|..];
    }
  }

  /** Response identities coincide exactly when both are results or both errors, with the same payload. */
  lemma ResponseIdentityIsSemantic(hash: Hash, reply1: Reply, reply2: Reply)
    requires WellFormed(ReplyBody(reply1)) && WellFormed(ReplyBody(reply2))
    requires hash(ResponsePreimage(reply1)) == hash(ResponsePreimage(reply2)) ==>
               ResponsePreimage(reply1) == ResponsePreimage(reply2)
    ensures ResponseIdentity(hash, reply1) == ResponseIdentity(hash, reply2)
       <==> reply1.Success? == reply2.Success? && Same(ReplyBody(reply1), ReplyBody(reply2))
  {
    PrintIsCanonical(ReplyBody(reply1), ReplyBody(reply2));
    PrintHasNoNul(ReplyBody(reply1));
    PrintHasNoNul(ReplyBody(reply2));
    if ResponseIdentity(hash, reply1) == ResponseIdentity(hash, reply2) {
      DigestsAgree(hash, Ascii("response:") + ReplyKind(reply1) + Ascii(":sha256:"), ResponsePreimage(reply1),
                   Ascii("response:") + ReplyKind(reply2) + Ascii(":sha256:"), ResponsePreimage(reply2));
      LastNulSplits(ReplyKind(reply1), Print(ReplyBody(reply1)), ReplyKind(reply2), Print(ReplyBody(reply2)));
      assert |Ascii("result")| != |Ascii("error")|;
    }
  }

  /** A notification and a response are never confused. */
  lemma KindsNeverCollide(hash: Hash, name: seq<Byte>, params: Json, reply: Reply)
    ensures NotificationIdentity(hash, name, params) != ResponseIdentity(hash, reply)
  {
    var n, r := NotificationIdentity(hash, name, params), ResponseIdentity(hash, reply);
    assert n[0] == 'n' as int && r[0] == 'r' as int;
  }
}
