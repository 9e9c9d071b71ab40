/** A message library as module Protocol asks for exists, so what is proved from it is not empty. */
module Codecs {
  import opened Wrappers
  import opened Framing
  import opened Protocol

  // Numbers in unary, lists with an end mark: any two encodings differ before either ends.

  function Number(n: nat): Bytes {
    if n == 0 then [0] else [1] + Number(n - 1)
  }

  function Numbers(s: seq<nat>): Bytes {
    if s == [] then [2] else Number(s[0]) + Numbers(s[1..])
  }

  function Fields(s: seq<seq<nat>>): Bytes
    ensures |Fields(s)| > 0
  {
    if s == [] then [3] else Numbers(s[0]) + Fields(s[1..])
  }

  lemma {:induction false} NumberEnds(a: nat, b: nat, x: Bytes, y: Bytes)
    requires Number(a) + x == Number(b) + y
    ensures a == b && x == y
  {
    var left, right := Number(a) + x, Number(b) + y;
    assert left[0] == right[0];
    if a == 0 {
      assert x == left[1..] && y == right[1..];
    } else {
      assert Number(a - 1) + x == left[1..] && Number(b - 1) + y == right[1..];
      NumberEnds(a - 1, b - 1, x, y);
    }
  }

  lemma Heads(s: seq<nat>, x: Bytes)
    ensures (Numbers(s) + x)[0] <= 2 && ((Numbers(s) + x)[0] == 2 <==> s == [])
  {
  }

  lemma {:induction false} NumbersEnd(a: seq<nat>, b: seq<nat>, x: Bytes, y: Bytes)
    requires Numbers(a) + x == Numbers(b) + y
    ensures a == b && x == y
  {
    var left, right := Numbers(a) + x, Numbers(b) + y;
    Heads(a, x);
    Heads(b, y);
    if a == [] {
      assert x == left[1..] && y == right[1..];
    } else {
      assert left == Number(a[0]) + (Numbers(a[1..]) + x) && right == Number(b[0]) + (Numbers(b[1..]) + y);
      NumberEnds(a[0], b[0], Numbers(a[1..]) + x, Numbers(b[1..]) + y);
      NumbersEnd(a[1..], b[1..], x, y);
      assert a == [a[0]] + a[1..] && b == [b[0]] + b[1..];
    }
  }

  /** Different lists of fields have different encodings. */
  lemma {:induction false} FieldsEnd(a: seq<seq<nat>>, b: seq<seq<nat>>)
    requires Fields(a) == Fields(b)
    ensures a == b
  {
    var left, right := Fields(a), Fields(b);
    if a != [] { Heads(a[0], Fields(a[1..])); }
    if b != [] { Heads(b[0], Fields(b[1..])); }
    assert left[0] == right[0];
    if a != [] {
      NumbersEnd(a[0], b[0], Fields(a[1..]), Fields(b[1..]));
      FieldsEnd(a[1..], b[1..]);
      assert a == [a[0]] + a[1..] && b == [b[0]] + b[1..];
    }
  }

  function Codes(s: string): (r: seq<nat>)
    ensures |r| == |s| && forall k :: 0 <= k < |s| ==> r[k] == s[k] as int
  {
    seq(|s|, k requires 0 <= k < |s| => s[k] as int)
  }

  function Text(bytes: Bytes): (s: string)
    ensures |s| == |bytes| && forall k :: 0 <= k < |s| ==> s[k] == (bytes[k] as int) as char
  {
    seq(|bytes|, k requires 0 <= k < |bytes| => (bytes[k] as int) as char)
  }

  function AllCodes(s: seq<string>): (r: seq<seq<nat>>)
    ensures |r| == |s| && forall k :: 0 <= k < |s| ==> r[k] == Codes(s[k])
  {
    seq(|s|, k requires 0 <= k < |s| => Codes(s[k]))
  }

  lemma CodesDiffer(a: string, b: string)
    ensures Codes(a) == Codes(b) ==> a == b
  {
    if Codes(a) == Codes(b) {
      assert forall k :: 0 <= k < |a| ==> Codes(a)[k] == Codes(b)[k];
    }
  }

  lemma TextsDiffer(a: Bytes, b: Bytes)
    ensures Text(a) == Text(b) ==> a == b
  {
    if Text(a) == Text(b) {
      assert forall k :: 0 <= k < |a| ==> Text(a)[k] == Text(b)[k];
    }
  }

  lemma AllCodesDiffer(a: seq<string>, b: seq<string>)
    ensures AllCodes(a) == AllCodes(b) ==> a == b
  {
    if AllCodes(a) == AllCodes(b) {
      forall k | 0 <= k < |a| ensures a[k] == b[k] {
        assert AllCodes(a)[k] == AllCodes(b)[k];
        CodesDiffer(a[k], b[k]);
      }
    }
  }

  function RequestFields(q: Request): seq<seq<nat>> {
    match q
    case WelcomeRequest => []
    case CopyInRequest(pathname, content) => [[0], Codes(pathname), Codes(Text(content))]
    case ExecuteRequest(executable, arguments) => [[1], Codes(executable)] + AllCodes(arguments)
    case CopyOutRequest(pathname) => [[2], Codes(pathname)]
  }

  function ResponseFields(r: Response): seq<seq<nat>> {
    var kind := match r.requestType case WELCOME => 0 case COPY_IN => 1 case EXECUTE => 2 case COPY_OUT => 3;
    [[kind, if r.copiedIn then 1 else 0, if r.copiedOut then 1 else 0,
      if r.status < 0 then -r.status else r.status, if r.status < 0 then 1 else 0], Codes(r.hostname),
          Codes(Text(r.content))]
  }

  lemma RequestsDiffer(a: Request, b: Request)
    requires RequestFields(a) == RequestFields(b)
    ensures a == b
  {
    var left, right := RequestFields(a), RequestFields(b);
    if !a.WelcomeRequest? {
      assert left[0] == right[0];
      assert left[1] == right[1];
      match a
      case CopyInRequest(p, c) =>
        assert left[2] == right[2];
        CodesDiffer(p, b.pathname);
        CodesDiffer(Text(c), Text(b.content));
        TextsDiffer(c, b.content);
      case ExecuteRequest(e, s) =>
        assert b.ExecuteRequest?;
        assert AllCodes(s) == left[2..] && AllCodes(b.arguments) == right[2..];
        CodesDiffer(e, b.executable);
        AllCodesDiffer(s, b.arguments);
      case CopyOutRequest(p) =>
        CodesDiffer(p, b.pathname);
    }
  }

  lemma ResponsesDiffer(a: Response, b: Response)
    requires ResponseFields(a) == ResponseFields(b)
    ensures a == b
  {
    var left, right := ResponseFields(a), ResponseFields(b);
    assert left[0] == right[0] && left[1] == right[1] && left[2] == right[2];
    assert forall k :: 0 <= k < 5 ==> left[0][k] == right[0][k];
    CodesDiffer(a.hostname, b.hostname);
    CodesDiffer(Text(a.content), Text(b.content));
    TextsDiffer(a.content, b.content);
  }

  function EncodeRequest(q: Request): Bytes {
    Fields(RequestFields(q))
  }

  function EncodeResponse(r: Response): Bytes {
    Fields(ResponseFields(r))
  }

  ghost function DecodeRequest(bytes: Bytes): Option<Request> {
    if exists q :: EncodeRequest(q) == bytes then var q :| EncodeRequest(q) == bytes; Some(q) else None
  }

  ghost function DecodeResponse(bytes: Bytes): Option<Response> {
    if exists r :: EncodeResponse(r) == bytes then var r :| EncodeResponse(r) == bytes; Some(r) else None
  }

  lemma RequestsComeBack(q: Request)
    ensures DecodeRequest(EncodeRequest(q)) == Some(q)
  {
    hide RequestFields, Fields;
    var got := DecodeRequest(EncodeRequest(q)).value;
    FieldsEnd(RequestFields(got), RequestFields(q));
    RequestsDiffer(got, q);
  }

  lemma ResponsesComeBack(r: Response)
    ensures DecodeResponse(EncodeResponse(r)) == Some(r)
  {
    hide ResponseFields, Fields;
    var got := DecodeResponse(EncodeResponse(r)).value;
    FieldsEnd(ResponseFields(got), ResponseFields(r));
    ResponsesDiffer(got, r);
  }

  ghost function Library(): Codec {
    Codec(EncodeRequest, bytes => DecodeRequest(bytes), EncodeResponse, bytes => DecodeResponse(bytes))
  }

  lemma LibraryIsFaithful()
    ensures Faithful(Library())
  {
    forall q: Request ensures Library().decodeRequest(Library().encodeRequest(q)) == Some(q) {
      RequestsComeBack(q);
    }
    forall r: Response ensures Library().decodeResponse(Library().encodeResponse(r)) == Some(r) {
      ResponsesComeBack(r);
    }
  }

  // It is wasteful, but carries short messages.

  predicate Ascii(s: seq<nat>) {
    forall k :: 0 <= k < |s| ==> s[k] < 128
  }

  lemma {:induction false} NumberSize(n: nat)
    ensures |Number(n)| == n + 1
  {
    if n > 0 {
      NumberSize(n - 1);
    }
  }

  lemma {:induction false} NumbersSize(s: seq<nat>)
    requires Ascii(s)
    ensures |Numbers(s)| <= 128 * |s| + 1
  {
    if s != [] {
      NumberSize(s[0]);
      NumbersSize(s[1..]);
    }
  }

  lemma ThreeFields(a: seq<nat>, b: seq<nat>, c: seq<nat>)
    requires Ascii(a) && Ascii(b) && Ascii(c) && |a| <= 10 && |b| <= 10 && |c| <= 10
    ensures |Fields([a, b, c])| <= 4000
  {
    hide Numbers;
    NumbersSize(a);
    NumbersSize(b);
    NumbersSize(c);
    assert [a, b, c][1..] == [b, c] && [b, c][1..] == [c] && [c][1..] == [];
    assert |Fields([])| == 1 && |Fields([c])| == |Numbers(c)| + 1;
    assert |Fields([b, c])| == |Numbers(b)| + |Numbers(c)| + 1;
  }

  lemma GreetingSize()
    ensures |EncodeRequest(WelcomeRequest)| == 1
  {
  }

  lemma RunSize(executable: string, argument: string)
    requires |executable| <= 10 && |argument| <= 10
    requires Ascii(Codes(executable)) && Ascii(Codes(argument))
    ensures |EncodeRequest(ExecuteRequest(executable, [argument]))| <= 4000
  {
    hide Fields, Codes;
    assert RequestFields(ExecuteRequest(executable, [argument])) == [[1], Codes(executable), Codes(argument)] by {
      assert AllCodes([argument]) == [Codes(argument)];
    }
    ThreeFields([1], Codes(executable), Codes(argument));
  }

  lemma PlainSize(r: Response)
    requires r.hostname == "" && r.content == [] && r.status == 0
    ensures 0 < |EncodeResponse(r)| <= 4000
  {
    hide Fields;
    assert Codes("") == [] && Codes(Text([])) == [];
    ThreeFields(ResponseFields(r)[0], [], []);
  }
}
