/** The injected transport: requests, replies, and the trace of what was exchanged. */
module Net {
  import opened Wrappers
  import opened Text
  import opened Types

  datatype Response = Response(status: nat, headers: seq<(string, string)>, body: Bytes)

  /** A transport failure (DNS, TLS, connect, timeout) or an HTTP response of any status. */
  datatype Reply = Unreached | Reached(response: Response)

  datatype ContentParams = ContentParams(store: string, root: string, contentKey: string, offset: u64, length: u64)

  /** A health probe, a node content GET, or a `dig.getContent` POST. */
  datatype Request =
    | Health(url: string)
    | Serve(url: string)
    | Content(url: string, params: ContentParams)

  datatype Exchange = Exchange(request: Request, reply: Reply)

  /** Whoever answers: the reply may depend on everything exchanged so far. */
  type Adversary = (seq<Exchange>, Request) -> Reply

  /** A transport whose reply is a fixed function of the request. */
  function Fixed(f: Request -> Reply): Adversary {
    (log: seq<Exchange>, request: Request) => f(request)
  }

  predicate IsSuccess(r: Response) {
    200 <= r.status < 300
  }

  /** The first header of that name, ignoring ASCII case. */
  function Header(headers: seq<(string, string)>, name: string): Option<string> {
    if headers == [] then None
    else if EqIgnoreCase(headers[0].0, name) then Some(headers[0].1)
    else Header(headers[1..], name)
  }

  /** The first header of that name, up to ASCII case. */
  predicate FirstNamed(headers: seq<(string, string)>, name: string, i: nat) {
    && i < |headers| && SameText(headers[i].0, name)
    && forall j :: 0 <= j < i ==> !SameText(headers[j].0, name)
  }

  /** The value found is that of the first header whose name matches up to ASCII case, and none is
      found exactly when no name matches. */
  lemma {:induction false} HeaderIsFirst(headers: seq<(string, string)>, name: string)
    ensures Header(headers, name).None? <==> forall i :: 0 <= i < |headers| ==> !SameText(headers[i].0, name)
    ensures forall i: nat :: FirstNamed(headers, name, i) ==> Header(headers, name) == Some(headers[i].1)
    ensures Header(headers, name).Some? ==>
              exists i: nat :: FirstNamed(headers, name, i) && Header(headers, name) == Some(headers[i].1)
  {
    hide EqIgnoreCase, SameText;
    if headers == [] {
    } else {
      var rest := headers[1..];
      EqIgnoreCaseExactly(headers[0].0, name);
      HeaderIsFirst(rest, name);
      assert forall i :: 0 < i < |headers| ==> headers[i] == rest[i - 1];
      if SameText(headers[0].0, name) {
        assert FirstNamed(headers, name, 0);
      } else {
        forall i: nat | FirstNamed(headers, name, i) ensures Header(headers, name) == Some(headers[i].1) {
          FirstLater(headers, name, i);
        }
        if Header(rest, name).Some? {
          var i: nat :| FirstNamed(rest, name, i) && Header(rest, name) == Some(rest[i].1);
          FirstLater(headers, name, i + 1);
        }
      }
    }
  }

  lemma FirstLater(headers: seq<(string, string)>, name: string, i: nat)
    requires headers != [] && !SameText(headers[0].0, name)
    ensures FirstNamed(headers, name, i) <==> i > 0 && FirstNamed(headers[1..], name, i - 1)
  {
    hide SameText;
    var rest := headers[1..];
    assert forall j :: 0 < j < |headers| ==> headers[j] == rest[j - 1];
    if i > 0 && FirstNamed(rest, name, i - 1) {
      forall j | 0 <= j < i ensures !SameText(headers[j].0, name) {
        if j > 0 {
          assert !SameText(rest[j - 1].0, name);
        }
      }
    }
    if i > 0 && FirstNamed(headers, name, i) {
      forall j | 0 <= j < i - 1 ensures !SameText(rest[j].0, name) {
        assert !SameText(headers[j + 1].0, name);
      }
    }
  }

  class Transport {
    const answer: Adversary
    var log: seq<Exchange>

    constructor (answer: Adversary)
      ensures this.answer == answer && log == []
    {
      this.answer := answer;
      log := [];
    }

    method Send(request: Request) returns (reply: Reply)
      modifies this
      ensures reply == answer(old(log), request)
      ensures log == old(log) + [Exchange(request, reply)]
    {
      reply := answer(log, request);
      log := log + [Exchange(request, reply)];
    }
  }
}
