/**
 * The link-admission loop of `generate_sitemap`: for each `href` of an accepted
 * page, skip fragment references, resolve the rest against the page's URL,
 * and admit the result when it is on the configured host and not yet in
 * `visited_urls`. The check-and-insert runs under the lock, so it is one
 * atomic step here.
 */
module LinkAdmission {
  import opened SitemapModel

  /** The URLs admitted from `hrefs`, in the order the loop appends them to
      `links_to_process`, when the loop starts from `visited`. */
  function Admit(c: Config, env: Env, visited: set<Url>, base: Url, hrefs: seq<string>): (links: seq<Url>)
    ensures forall i :: 0 <= i < |links| ==> links[i] !in visited && env.netloc(links[i]) == c.domain
    ensures forall i, j :: 0 <= i < j < |links| ==> links[i] != links[j]
    decreases |hrefs|
  {
    if hrefs == [] then []
    else
      var href := hrefs[0];
      if IsFragmentRef(href) then Admit(c, env, visited, base, hrefs[1..])
      else
        var full := env.join(base, href);
        if full !in visited && env.netloc(full) == c.domain then
          [full] + Admit(c, env, visited + {full}, base, hrefs[1..])
        else
          Admit(c, env, visited, base, hrefs[1..])
  }

  /** `u` is the raw `urljoin` result of some non-fragment `href` of the page. */
  ghost predicate LinkedFrom(env: Env, base: Url, hrefs: seq<string>, u: Url)
  {
    exists h :: h in hrefs && !IsFragmentRef(h) && env.join(base, h) == u
  }

  /** Exactly the new, on-domain targets of the page's non-fragment links are
      admitted: nothing is admitted that fails a test, and nothing that passes
      all of them is skipped. */
  lemma {:induction false} AdmitExactly(c: Config, env: Env, visited: set<Url>, base: Url, hrefs: seq<string>)
    ensures forall u :: u in Admit(c, env, visited, base, hrefs) <==>
      u !in visited && env.netloc(u) == c.domain && LinkedFrom(env, base, hrefs, u)
    decreases |hrefs|
  {
    if hrefs != [] {
      var href, rest := hrefs[0], hrefs[1..];
      assert hrefs == [href] + rest;
      var full := env.join(base, href);
      var admitted := !IsFragmentRef(href) && full !in visited && env.netloc(full) == c.domain;
      var visited' := if admitted then visited + {full} else visited;
      AdmitExactly(c, env, visited', base, rest);
      forall u
        ensures u in Admit(c, env, visited, base, hrefs) <==>
          u !in visited && env.netloc(u) == c.domain && LinkedFrom(env, base, hrefs, u)
      {
        if LinkedFrom(env, base, hrefs, u) && !LinkedFrom(env, base, rest, u) {
          var h :| h in hrefs && !IsFragmentRef(h) && env.join(base, h) == u;
          assert h == href;
        }
        if LinkedFrom(env, base, rest, u) {
          var h :| h in rest && !IsFragmentRef(h) && env.join(base, h) == u;
          assert h in hrefs;
        }
        if !IsFragmentRef(href) && u == full {
          assert LinkedFrom(env, base, hrefs, u) by { assert href in hrefs; }
        }
      }
    }
  }

  /** An `href` starting with `#` never contributes a link, whatever it resolves to. */
  lemma {:induction false} FragmentRefsIgnored(c: Config, env: Env, visited: set<Url>, base: Url, href: string, hrefs: seq<string>)
    requires IsFragmentRef(href)
    ensures Admit(c, env, visited, base, [href] + hrefs) == Admit(c, env, visited, base, hrefs)
  {
    assert ([href] + hrefs)[1..] == hrefs;
  }

  /** Running the loop on `a + b` is running it on `a`, then on `b` from the
      enlarged visited set: the loop carries nothing but `visited_urls` between
      iterations. */
  lemma {:induction false} AdmitConcat(c: Config, env: Env, visited: set<Url>, base: Url, a: seq<string>, b: seq<string>)
    ensures var first := Admit(c, env, visited, base, a);
      Admit(c, env, visited, base, a + b) == first + Admit(c, env, visited + Elems(first), base, b)
    decreases |a|
  {
    if a == [] {
      assert a + b == b;
      assert Elems([]) == {};
      assert visited + {} == visited;
    } else {
      assert (a + b)[1..] == a[1..] + b;
      var href := a[0];
      if !IsFragmentRef(href) && env.join(base, href) !in visited && env.netloc(env.join(base, href)) == c.domain {
        var u := env.join(base, href);
        AdmitConcat(c, env, visited + {u}, base, a[1..], b);
        var tail := Admit(c, env, visited + {u}, base, a[1..]);
        assert Elems([u] + tail) == {u} + Elems(tail);
        assert visited + {u} + Elems(tail) == visited + Elems([u] + tail);
      } else {
        AdmitConcat(c, env, visited, base, a[1..], b);
      }
    }
  }

  /** One more iteration of the loop: the `href` at position `i` is admitted
      exactly when its resolved URL passes both tests against the visited set
      the first `i` iterations produced. */
  lemma AdmitSnoc(c: Config, env: Env, visited: set<Url>, base: Url, hrefs: seq<string>, i: nat)
    requires i < |hrefs|
    ensures var links := Admit(c, env, visited, base, hrefs[..i]);
      var full := env.join(base, hrefs[i]);
      var seen := visited + Elems(links);
      Admit(c, env, visited, base, hrefs[..i + 1]) ==
        links + if !IsFragmentRef(hrefs[i]) && full !in seen && env.netloc(full) == c.domain then [full] else []
  {
    assert hrefs[..i] + [hrefs[i]] == hrefs[..i + 1];
    AdmitConcat(c, env, visited, base, hrefs[..i], [hrefs[i]]);
    var seen := visited + Elems(Admit(c, env, visited, base, hrefs[..i]));
    assert [hrefs[i]][1..] == [];
    var full := env.join(base, hrefs[i]);
    assert Admit(c, env, seen + {full}, base, []) == [];
  }
}
