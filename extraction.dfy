/**
 * Job extraction (`get_job`) over an abstract DOM.
 *
 * Every job container is given as the outcome of its four child lookups, made with the
 * configured title, link, company and location XPaths. A lookup either fails (the driver
 * raised, so the whole container is skipped) or yields the element's text. The link lookup
 * yields the `href` attribute, which the driver reports as `None` when the element has no
 * such attribute; that is not an error, so a job's link is optional.
 */
module Extraction {
  import opened Wrappers

  datatype Field = Absent | Text(value: string)

  datatype LinkField = NoAnchor | Anchor(href: Option<string>)

  datatype Container = Container(title: Field, link: LinkField, company: Field, location: Field)

  /**
   * What one `find_elements` call for the containers does: raise a stale-element error,
   * raise any other error, or return the containers in document order.
   */
  datatype Lookup = Stale | Raises | Containers(items: seq<Container>)

  /** One row of the result: the dictionary with keys `Title`, `Company`, `location`, `link`. */
  datatype Job = Job(title: string, company: string, location: string, link: Option<string>)

  /** The number of times `get_job` tries to collect the containers. */
  const MaxAttempts: nat := 3

  /** All four lookups of the container succeed. */
  predicate Complete(c: Container) {
    c.title.Text? && c.link.Anchor? && c.company.Text? && c.location.Text?
  }

  /** The record built from a container whose lookups all succeeded. */
  function ToJob(c: Container): Job
    requires Complete(c)
  {
    Job(c.title.value, c.company.value, c.location.value, c.link.href)
  }

  /** The records of one attempt: one per complete container, in container order. */
  function Extract(cs: seq<Container>): (r: seq<Job>)
    ensures |r| <= |cs|
    ensures |r| == |cs| <==> forall i :: 0 <= i < |cs| ==> Complete(cs[i])
  {
    if cs == [] then []
    else
      var init, last := cs[..|cs| - 1], cs[|cs| - 1];
      assert forall i :: 0 <= i < |init| ==> init[i] == cs[i];
      Extract(init) + if Complete(last) then [ToJob(last)] else []
  }

  /** Extraction keeps container order: it distributes over concatenation. */
  lemma {:induction false} ExtractAppend(a: seq<Container>, b: seq<Container>)
    ensures Extract(a + b) == Extract(a) + Extract(b)
  {
    if b == [] {
      assert a + b == a;
    } else {
      var n := |b| - 1;
      assert (a + b)[..|a + b| - 1] == a + b[..n];
      ExtractAppend(a, b[..n]);
    }
  }

  /** Every record comes from a complete container: there are no default values. */
  lemma {:induction false} ExtractSound(cs: seq<Container>, j: Job)
    requires j in Extract(cs)
    ensures exists i :: 0 <= i < |cs| && Complete(cs[i]) && ToJob(cs[i]) == j
  {
    var n := |cs| - 1;
    var init := cs[..n];
    if j in Extract(init) {
      ExtractSound(init, j);
      var i :| 0 <= i < |init| && Complete(init[i]) && ToJob(init[i]) == j;
      assert cs[i] == init[i];
    } else {
      assert Complete(cs[n]) && ToJob(cs[n]) == j;
    }
  }

  /** Every complete container yields its record. */
  lemma {:induction false} ExtractComplete(cs: seq<Container>, i: nat)
    requires i < |cs| && Complete(cs[i])
    ensures ToJob(cs[i]) in Extract(cs)
  {
    var n := |cs| - 1;
    if i < n {
      ExtractComplete(cs[..n], i);
    }
  }

  /**
   * The outcome of `get_job` from attempt k on: a stale answer moves to the next attempt, any
   * other error propagates, containers end the loop; after the last attempt the list is empty.
   */
  function CollectFrom(lookup: nat -> Lookup, k: nat): Result<seq<Job>>
    requires k <= MaxAttempts
    decreases MaxAttempts - k
  {
    if k == MaxAttempts then Ok([])
    else match lookup(k)
      case Stale => CollectFrom(lookup, k + 1)
      case Raises => Raised
      case Containers(cs) => Ok(Extract(cs))
  }

  /** The outcome of `get_job` when the k-th container lookup answers `lookup(k)`. */
  function Collected(lookup: nat -> Lookup): Result<seq<Job>> {
    CollectFrom(lookup, 0)
  }

  /** The outcome of an attempt that is the last one made. */
  function Settle(answer: Lookup): Result<seq<Job>> {
    match answer
    case Stale => Ok([])
    case Raises => Raised
    case Containers(cs) => Ok(Extract(cs))
  }

  /**
   * `get_job`: up to three attempts; only a stale answer of the container lookup itself
   * causes another attempt. Also returns how many attempts were made.
   */
  method GetJob(lookup: nat -> Lookup) returns (r: Result<seq<Job>>, attempts: nat)
    ensures 1 <= attempts <= MaxAttempts
    ensures forall k :: 0 <= k < attempts - 1 ==> lookup(k).Stale?
    ensures attempts < MaxAttempts ==> !lookup(attempts - 1).Stale?
    ensures r == Settle(lookup(attempts - 1))
    ensures r == Collected(lookup)
  {
    var jobList: seq<Job> := [];
    attempts := 0;
    while attempts < MaxAttempts
      invariant attempts <= MaxAttempts
      invariant forall k :: 0 <= k < attempts ==> lookup(k).Stale?
      invariant Collected(lookup) == CollectFrom(lookup, attempts)
      invariant jobList == []
    {
      var answer := lookup(attempts);
      attempts := attempts + 1;
      match answer {
        case Stale =>
        case Raises =>
          return Raised, attempts;
        case Containers(cs) =>
          for i := 0 to |cs|
            invariant jobList == Extract(cs[..i])
          {
            var c := cs[i];
            assert cs[..i + 1][..i] == cs[..i];
            if c.title.Text? && c.link.Anchor? && c.company.Text? && c.location.Text? {
              jobList := jobList + [Job(c.title.value, c.company.value, c.location.value, c.link.href)];
            }
          }
          assert cs[..|cs|] == cs;
          return Ok(jobList), attempts;
      }
    }
    r := Ok(jobList);
  }

  /** Every record `get_job` returns comes from a complete container of some attempt. */
  lemma CollectedSound(lookup: nat -> Lookup, j: Job)
    requires Collected(lookup).Ok? && j in Collected(lookup).value
    ensures exists k, cs :: 0 <= k < MaxAttempts && lookup(k) == Containers(cs)
                            && exists i :: 0 <= i < |cs| && Complete(cs[i]) && ToJob(cs[i]) == j
  {
    var k := if !lookup(0).Stale? then 0 else if !lookup(1).Stale? then 1 else 2;
    var cs := lookup(k).items;
    ExtractSound(cs, j);
  }

  /** The answers after the third attempt are never consulted. */
  lemma CollectedUsesThreeAttempts(lookup: nat -> Lookup, other: nat -> Lookup)
    requires forall k :: 0 <= k < MaxAttempts ==> lookup(k) == other(k)
    ensures Collected(lookup) == Collected(other)
  {
  }

  /** Stale on the first two attempts and containers on the third: the third attempt's records. */
  lemma StaleTwiceThenFound(lookup: nat -> Lookup, cs: seq<Container>)
    requires lookup(0) == Stale && lookup(1) == Stale && lookup(2) == Containers(cs)
    ensures Collected(lookup) == Ok(Extract(cs))
  {
  }

  /** Three stale answers: the empty list. */
  lemma AllStale(lookup: nat -> Lookup)
    requires lookup(0) == Stale && lookup(1) == Stale && lookup(2) == Stale
    ensures Collected(lookup) == Ok([])
  {
  }
}
