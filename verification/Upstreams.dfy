/** What one upstream call can come back with (src/upstream/call.rs, src/proxy/reply.rs). */
module Upstreams {

  datatype Option<+T> = None | Some(value: T)

  /** Labels are the identities of upstreams; the configuration makes them distinct. */
  type UpstreamId = string

  datatype Upstream = Upstream(id: UpstreamId, hedgeAfter: nat)

  datatype Reply = Reply(httpStatus: nat, body: string)

  datatype CallError =
    | Unreachable
    | ReadFailed(httpStatus: nat)
    | RpcError(httpStatus: nat, code: int, retryable: bool, body: string)
    | ErrorStatus(httpStatus: nat)
  {
    predicate IsRetryable() {
      match this
      case Unreachable => true
      case ReadFailed(_) => true
      case ErrorStatus(status) => status == 429 || 500 <= status < 600
      case RpcError(_, _, retryable, _) => retryable
    }
  }

  datatype CallResult = Answered(reply: Reply) | Failed(error: CallError)
  {
    predicate FailsRetryably() {
      Failed? && error.IsRetryable()
    }
  }

  /** The outcomes that pass a request on to the next upstream, written out. */
  predicate PassedOn(r: CallResult) {
    && r.Failed?
    && (|| r.error.Unreachable?
        || r.error.ReadFailed?
        || (r.error.ErrorStatus? && (r.error.httpStatus == 429 || 500 <= r.error.httpStatus <= 599))
        || (r.error.RpcError? && r.error.retryable))
  }

  lemma RetryableMeans(r: CallResult)
    ensures r.FailsRetryably() <==> PassedOn(r)
    ensures r.Failed? ==> (r.error.IsRetryable() <==> PassedOn(r))
  {
  }

  function Min(a: nat, b: nat): nat {
    if a <= b then a else b
  }

  predicate Distinct<T(==)>(s: seq<T>) {
    forall i, j :: 0 <= i < j < |s| ==> s[i] != s[j]
  }

  function Ids(chain: seq<Upstream>): (ids: seq<UpstreamId>)
    ensures |ids| == |chain|
    ensures forall i :: 0 <= i < |chain| ==> ids[i] == chain[i].id
  {
    seq(|chain|, i requires 0 <= i < |chain| => chain[i].id)
  }
}
