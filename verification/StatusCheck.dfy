/** The end of a health check: the results are read, and errors are reported that the last check did not find. */
module StatusCheck {
  /** An empty error means that the app answered. */
  datatype Health = Health(domain: string, error: string)

  function Message(h: Health): string {
    "Status check failed for domain " + h.domain + ": " + h.error
  }

  lemma SameMessage(a: Health, b: Health)
    requires a.domain == b.domain
    ensures Message(a) == Message(b) <==> a.error == b.error
  {
    var n := |Message(a)| - |a.error|;
    assert Message(a)[n..] == a.error && (|Message(b)| >= n ==> Message(b)[n..] == b.error);
  }

  /** What the last check of the domain found; an answer if there was none. */
  function LastError(history: seq<Health>, domain: string): string {
    if history == [] then ""
    else if history[|history| - 1].domain == domain then history[|history| - 1].error
    else LastError(history[..|history| - 1], domain)
  }

  /** An error is news unless the last check of the domain found the same. */
  predicate IsNews(history: seq<Health>, h: Health) {
    h.error != "" && h.error != LastError(history, h.domain)
  }

  function News(history: seq<Health>, results: seq<Health>): seq<string> {
    if results == [] then []
    else
      var n := |results| - 1;
      News(history, results[..n]) + if IsNews(history + results[..n], results[n]) then [Message(results[n])] else []
  }

  /** The memory holds the message about what the last check found, or nothing for an answer. */
  ghost predicate Remembers(memory: map<string, string>, history: seq<Health>, domain: string) {
    var last := LastError(history, domain);
    (if domain in memory then memory[domain] else "") == if last == "" then "" else Message(Health(domain, last))
  }

  lemma LastErrorAfter(history: seq<Health>, h: Health, domain: string)
    ensures LastError(history + [h], domain) == if domain == h.domain then h.error else LastError(history, domain)
  {
    assert (history + [h])[..|history|] == history;
  }

  lemma RemembersNext(memory: map<string, string>, history: seq<Health>, h: Health, domain: string)
    requires Remembers(memory, history, domain)
    ensures Remembers(memory[h.domain := if h.error == "" then "" else Message(h)], history + [h], domain)
  {
    LastErrorAfter(history, h, domain);
  }

  class ResultReader {
    var notificationsSent: map<string, string>
    ghost var history: seq<Health> // every result ever read

    ghost predicate Valid()
      reads this
    {
      forall d :: Remembers(notificationsSent, history, d)
    }

    constructor ()
      ensures Valid() && history == []
    {
      notificationsSent, history := map[], [];
    }

    method ReadResult(h: Health) returns (notified: bool)
      requires Valid()
      modifies this
      ensures Valid() && history == old(history) + [h]
      ensures notified <==> IsNews(old(history), h)
    {
      notified := false;
      ghost var memory, last := notificationsSent, LastError(history, h.domain);
      assert Remembers(memory, history, h.domain);
      SameMessage(h, Health(h.domain, last));
      if h.error != "" {
        var message := "Status check failed for domain " + h.domain + ": " + h.error;
        if h.domain !in notificationsSent || notificationsSent[h.domain] != message {
          notificationsSent := notificationsSent[h.domain := message];
          notified := true;
        }
      } else {
        notificationsSent := notificationsSent[h.domain := ""];
      }
      assert notificationsSent == memory[h.domain := if h.error == "" then "" else Message(h)];
      ghost var history' := history + [h];
      forall d: string
        ensures Remembers(notificationsSent, history', d)
      {
        assert Remembers(memory, history, d);
        RemembersNext(memory, history, h, d);
      }
      history := history';
    }

    /** The loop over the results: exactly the news is sent, in order, and the results are added to the cache that
    the main loop began. */
    method ReadResults(healthCache: seq<Health>, results: seq<Health>)
        returns (cache: seq<Health>, hasError: bool, sent: seq<string>)
      requires Valid()
      modifies this
      ensures Valid() && history == old(history) + results
      ensures cache == healthCache + results
      ensures hasError <==> exists h :: h in results && h.error != ""
      ensures sent == News(old(history), results)
    {
      cache, hasError, sent := healthCache, false, [];
      for i := 0 to |results|
        invariant Valid() && history == old(history) + results[..i]
        invariant cache == healthCache + results[..i]
        invariant hasError <==> exists h :: h in results[..i] && h.error != ""
        invariant sent == News(old(history), results[..i])
      {
        assert results[..i + 1] == results[..i] + [results[i]];
        assert results[..i + 1][..i] == results[..i];
        var notified := ReadResult(results[i]);
        hasError := hasError || results[i].error != "";
        sent := sent + if notified then [Message(results[i])] else [];
        cache := cache + [results[i]];
      }
      assert results[..|results|] == results;
    }
  }

  /** Between two notifications with the same text the domain answered, or failed in another way. */
  lemma {:induction false} RepeatedNewsNeedsChange(history: seq<Health>, between: seq<Health>, h: Health)
    ensures IsNews(history + [h] + between, h) ==>
              exists k :: 0 <= k < |between| && between[k].domain == h.domain && between[k].error != h.error
  {
    if between == [] {
      assert history + [h] + between == history + [h];
      LastErrorAfter(history, h, h.domain);
    } else {
      var n := |between| - 1;
      assert history + [h] + between == (history + [h] + between[..n]) + [between[n]];
      LastErrorAfter(history + [h] + between[..n], between[n], h.domain);
      if between[n].domain != h.domain && IsNews(history + [h] + between, h) {
        RepeatedNewsNeedsChange(history, between[..n], h);
        var k :| 0 <= k < n && between[..n][k].domain == h.domain && between[..n][k].error != h.error;
        assert between[k] == between[..n][k];
      }
    }
  }
}
