/** Scripted replies of an external HTTP API and the retry-on-429 rule. A
    request is answered by the replies of its script in turn; the caller
    repeats the same request while the reply is 429. */
module Http {

  const OK: int := 200
  const NOT_FOUND: int := 404
  const TOO_MANY_REQUESTS: int := 429

  datatype Response<B> = Response(status: int, body: B)

  /** The script eventually answers with something other than 429. */
  ghost predicate Settles<B>(script: seq<Response<B>>) {
    exists j :: 0 <= j < |script| && script[j].status != TOO_MANY_REQUESTS
  }

  /** The number of 429 replies before the first other reply. */
  function SettleIndex<B>(script: seq<Response<B>>): (k: nat)
    requires Settles(script)
    ensures k < |script| && script[k].status != TOO_MANY_REQUESTS
    ensures forall j :: 0 <= j < k ==> script[j].status == TOO_MANY_REQUESTS
  {
    if script[0].status != TOO_MANY_REQUESTS then 0
    else
      assert Settles(script[1..]) by {
        var j :| 0 <= j < |script| && script[j].status != TOO_MANY_REQUESTS;
        assert script[1..][j - 1] == script[j];
      }
      1 + SettleIndex(script[1..])
  }

  /** The reply the retry loop finally acts on. */
  function Settled<B>(script: seq<Response<B>>): (r: Response<B>)
    requires Settles(script)
    ensures r.status != TOO_MANY_REQUESTS
    ensures r in script
  {
    script[SettleIndex(script)]
  }

  ghost predicate AllSettle<B>(scripts: seq<seq<Response<B>>>) {
    forall i :: 0 <= i < |scripts| ==> Settles(scripts[i])
  }
}
