/** What every list screen of the console shares: the requests it sends, the
    responses it may get back, how a fetched list replaces the shown one, and
    `Array.prototype.filter` with a callback that may throw. */
module Crud {
  import opened Js

  datatype Verb = Get | Post | Put | Delete

  datatype Request = Request(verb: Verb, url: string)

  /** An awaited `fetch`: it rejects (the network failed) or resolves with a status. */
  datatype Response = NetworkError | Http(ok: bool)

  /** An awaited `fetch` followed by `response.json()`: no reply (a rejection or
      a body that is not JSON) or a reply with its status and its parsed body. */
  datatype Reply<+T> = NoReply | Reply(ok: bool, body: T)

  /** Whether a handler looks at `response.ok` before it goes on. */
  datatype Policy = ChecksOk | IgnoresStatus

  /** Does a handler get past its awaited request? A rejected fetch always
      lands in the `catch`; a non-ok status does only when the handler checks it. */
  predicate Proceeds(policy: Policy, resp: Response) {
    match policy
    case ChecksOk => resp == Http(true)
    case IgnoresStatus => resp.Http?
  }

  /** The two policies differ on exactly one response: a reply the server rejected. */
  lemma PoliciesDifferOnlyOnRejection(resp: Response)
    ensures Proceeds(ChecksOk, resp) ==> Proceeds(IgnoresStatus, resp)
    ensures Proceeds(IgnoresStatus, resp) && !Proceeds(ChecksOk, resp) <==> resp == Http(false)
  {
  }

  /** The list a screen shows after a fetch of it: replaced by the reply's body,
      or kept when the fetch landed in the `catch`. */
  function Refreshed<T>(current: seq<T>, reply: Reply<seq<T>>, policy: Policy): (r: seq<T>)
    ensures r == current || (reply.Reply? && r == reply.body)
    ensures reply.NoReply? ==> r == current
    ensures reply.Reply? && !reply.ok && policy == ChecksOk ==> r == current
    ensures reply.Reply? && (reply.ok || policy == IgnoresStatus) ==> r == reply.body
  {
    match reply
    case NoReply => current
    case Reply(ok, body) => if ok || policy == IgnoresStatus then body else current
  }

  // ---------------------------------------------------------------- targets

  /** `${base}/${id}` */
  function ItemUrl(base: string, id: Value): (url: string)
    ensures IsPrefix(base + "/", url)
    ensures url[|base| + 1..] == Interpolate(id)
  {
    base + "/" + Interpolate(id)
  }

  /** The save target: PUT to the selected record's URL in edit mode, else POST
      to the collection. `editing` is the selected record's id in edit mode. */
  function SaveTarget(base: string, editing: Option<Value>): (r: Request)
    ensures r.verb == Put <==> editing.Some?
    ensures r.verb == Post <==> editing.None?
    ensures editing.None? ==> r.url == base
    ensures editing.Some? ==> r.url == ItemUrl(base, editing.value) && r.url != base
  {
    match editing
    case None => Request(Post, base)
    case Some(id) => Request(Put, ItemUrl(base, id))
  }

  function DeleteTarget(base: string, id: Value): (r: Request)
    ensures r.verb == Delete && IsPrefix(base + "/", r.url) && r.url[|base| + 1..] == Interpolate(id)
  {
    Request(Delete, ItemUrl(base, id))
  }

  // ---------------------------------------------------------------- filtering

  /** r is s with some elements left out, in the same order. */
  ghost predicate Subsequence<T>(r: seq<T>, s: seq<T>)
    decreases |s|
  {
    if r == [] then true
    else if s == [] then false
    else (r[0] == s[0] && Subsequence(r[1..], s[1..])) || Subsequence(r, s[1..])
  }

  /** `s.filter(p)` where the callback p may throw: the whole expression throws
      when p throws on any element; otherwise it keeps, in order and unaltered,
      exactly the elements on which p is true. */
  function Keep<T(!new)>(s: seq<T>, p: T -> Eval<bool>): (r: Eval<seq<T>>)
    ensures r.Returns? <==> forall i :: 0 <= i < |s| ==> p(s[i]).Returns?
    ensures r.Returns? ==> Subsequence(r.value, s) && |r.value| <= |s|
    ensures r.Returns? ==> forall x :: x in r.value <==> x in s && p(x) == Returns(true)
    ensures r.Returns? ==> forall x :: multiset(r.value)[x] == if p(x) == Returns(true) then multiset(s)[x] else 0
  {
    if s == [] then Returns([])
    else
      var keep :- p(s[0]);
      var rest :- Keep(s[1..], p);
      assert s == [s[0]] + s[1..];
      Returns(if keep then [s[0]] + rest else rest)
  }

  /** When the callback is true everywhere, the filter gives back the whole list. */
  lemma {:induction false} KeepAll<T(!new)>(s: seq<T>, p: T -> Eval<bool>)
    requires forall i :: 0 <= i < |s| ==> p(s[i]) == Returns(true)
    ensures Keep(s, p) == Returns(s)
  {
    if s != [] {
      KeepAll(s[1..], p);
      assert s == [s[0]] + s[1..];
    }
  }

  /** Two callbacks that agree on every element filter a list alike. */
  lemma {:induction false} KeepCongruent<T(!new)>(s: seq<T>, p: T -> Eval<bool>, q: T -> Eval<bool>)
    requires forall i :: 0 <= i < |s| ==> p(s[i]) == q(s[i])
    ensures Keep(s, p) == Keep(s, q)
  {
    if s != [] {
      KeepCongruent(s[1..], p, q);
    }
  }

  /** `s.filter(p)` with a callback that cannot throw. */
  function Select<T(!new)>(s: seq<T>, p: T -> bool): (r: seq<T>)
    ensures Subsequence(r, s) && |r| <= |s|
    ensures forall x :: x in r <==> x in s && p(x)
    ensures forall x :: multiset(r)[x] == if p(x) then multiset(s)[x] else 0
  {
    Keep(s, x => Returns(p(x))).value
  }
}
