/** The request log of concepts/APIConcept.ts: each request key holds a method, a path, an input
    and, once answered, an output. */
module Api {
  import opened Values

  datatype Request = Request(request: string, verb: string, path: string, input: Value, output: Value)

  class APIConcept {
    var requests: map<string, Request>

    ghost predicate Valid()
      reads this
    {
      forall k :: k in requests ==> requests[k].request == k
    }

    constructor ()
      ensures Valid() && requests == map[]
    {
      requests := map[];
    }

    /** `request`: records (or resets) the request with no output yet, and answers its key. */
    method Submit(request: string, verb: string, path: string, input: Value) returns (r: string)
      requires Valid()
      modifies this
      ensures Valid() && r == request
      ensures requests == old(requests)[request := Request(request, verb, path, input, Null)]
    {
      requests := requests[request := Request(request, verb, path, input, Null)];
      r := request;
    }

    /** `response`: sets the output of a known request and nothing else; an unknown key changes
        nothing. Either way it answers the key. */
    method Respond(request: string, output: Value) returns (r: string)
      requires Valid()
      modifies this
      ensures Valid() && r == request
      ensures requests.Keys == old(requests).Keys
      ensures request in old(requests) ==> (requests[request].output == output
        && requests[request].(output := old(requests)[request].output) == old(requests)[request])
      ensures forall k :: k in old(requests) && k != request ==> requests[k] == old(requests)[k]
    {
      if request in requests {
        requests := requests[request := requests[request].(output := output)];
      }
      r := request;
    }

    /** `_get`: the record stored under the key, if any. */
    function Get(request: string): (r: seq<Request>)
      requires Valid()
      reads this
      ensures |r| <= 1
      ensures r != [] <==> request in requests
      ensures r != [] ==> r[0] == requests[request] && r[0].request == request
    {
      if request in requests then [requests[request]] else []
    }
  }
}
