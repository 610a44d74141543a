/** Lists of checks, each with the code that is given when it fails. */
module Checks {

  datatype Check<+C> = Check(ok: bool, code: C)

  predicate AllHold<C>(checks: seq<Check<C>>) {
    forall i :: 0 <= i < |checks| ==> checks[i].ok
  }

  /** Some check fails whose code this is. */
  predicate Names<C(==)>(checks: seq<Check<C>>, code: C) {
    exists i :: 0 <= i < |checks| && !checks[i].ok && checks[i].code == code
  }

  /** The codes of the checks that fail, in order. */
  function Failing<C>(checks: seq<Check<C>>): seq<C> {
    if checks == [] then [] else
    var last := checks[|checks| - 1];
    Failing(checks[..|checks| - 1]) + (if last.ok then [] else [last.code])
  }

  /** Run all checks and collect the codes of those that fail. */
  method CollectFailures<C>(checks: seq<Check<C>>) returns (codes: seq<C>)
    ensures codes == Failing(checks)
  {
    codes := [];
    for i := 0 to |checks|
      invariant codes == Failing(checks[..i])
    {
      assert checks[..i + 1][..i] == checks[..i];
      if !checks[i].ok {
        codes := codes + [checks[i].code];
      }
    }
    assert checks[..|checks|] == checks;
  }

  lemma {:induction false} NamesSnoc<C>(init: seq<Check<C>>, last: Check<C>, code: C)
    ensures Names(init + [last], code) <==> Names(init, code) || (!last.ok && last.code == code)
  {
    var checks := init + [last];
    if Names(init, code) {
      var i :| 0 <= i < |init| && !init[i].ok && init[i].code == code;
      assert checks[i] == init[i];
    }
    assert checks[|init|] == last;
  }

  lemma {:induction false} FailingNames<C>(checks: seq<Check<C>>, code: C)
    ensures code in Failing(checks) <==> Names(checks, code)
  {
    if checks != [] {
      var init, last := checks[..|checks| - 1], checks[|checks| - 1];
      FailingNames(init, code);
      NamesSnoc(init, last, code);
      assert checks == init + [last];
    }
  }

  lemma {:induction false} NoneFailing<C>(checks: seq<Check<C>>)
    ensures Failing(checks) == [] <==> AllHold(checks)
  {
    if checks != [] {
      NoneFailing(checks[..|checks| - 1]);
    }
  }

  /** No code is given exactly when every check holds; a code is given exactly when one of its checks
      fails. */
  lemma {:induction false} FailingMeans<C(!new)>(checks: seq<Check<C>>)
    ensures Failing(checks) == [] <==> AllHold(checks)
    ensures forall code :: code in Failing(checks) <==> Names(checks, code)
  {
    NoneFailing(checks);
    forall code ensures code in Failing(checks) <==> Names(checks, code) {
      FailingNames(checks, code);
    }
  }

  lemma {:induction false} FailingAppend<C>(a: seq<Check<C>>, b: seq<Check<C>>)
    ensures Failing(a + b) == Failing(a) + Failing(b)
  {
    if b == [] {
      assert a + b == a;
    } else {
      FailingAppend(a, b[..|b| - 1]);
      assert (a + b)[..|a + b| - 1] == a + b[..|b| - 1];
    }
  }

  lemma {:induction false} AllHoldAppend<C>(a: seq<Check<C>>, b: seq<Check<C>>)
    ensures AllHold(a + b) <==> AllHold(a) && AllHold(b)
  {
    if AllHold(a + b) {
      forall i | 0 <= i < |b| ensures b[i].ok {
        assert (a + b)[|a| + i] == b[i];
      }
      forall i | 0 <= i < |a| ensures a[i].ok {
        assert (a + b)[i] == a[i];
      }
    }
  }

  lemma {:induction false} NamesAppend<C>(a: seq<Check<C>>, b: seq<Check<C>>, code: C)
    ensures Names(a + b, code) <==> Names(a, code) || Names(b, code)
  {
    FailingNames(a, code);
    FailingNames(b, code);
    FailingNames(a + b, code);
    FailingAppend(a, b);
  }

  // ---------------------------------------------------------------- lists of a known length

  /** This check fails, and the code is its code. */
  predicate FailsAs<C(==)>(c: Check<C>, code: C) {
    !c.ok && c.code == code
  }

  lemma {:induction false} OfThree<C>(a: Check<C>, b: Check<C>, c: Check<C>, code: C)
    ensures Names([a, b, c], code) <==> FailsAs(a, code) || FailsAs(b, code) || FailsAs(c, code)
    ensures AllHold([a, b, c]) <==> a.ok && b.ok && c.ok
  {
    var checks := [a, b, c];
    assert checks[0] == a && checks[1] == b && checks[2] == c;
  }

  lemma {:induction false} OfSeven<C>(a: Check<C>, b: Check<C>, c: Check<C>, d: Check<C>, e: Check<C>, f: Check<C>,
                                      g: Check<C>, code: C)
    ensures Names([a, b, c, d, e, f, g], code) <==>
      || FailsAs(a, code) || FailsAs(b, code) || FailsAs(c, code) || FailsAs(d, code) || FailsAs(e, code)
      || FailsAs(f, code) || FailsAs(g, code)
    ensures AllHold([a, b, c, d, e, f, g]) <==> a.ok && b.ok && c.ok && d.ok && e.ok && f.ok && g.ok
  {
    var checks := [a, b, c, d, e, f, g];
    assert checks[0] == a && checks[1] == b && checks[2] == c && checks[3] == d && checks[4] == e && checks[5] == f;
    assert checks[6] == g;
  }

  /** All checks hold exactly when no code is named. */
  lemma {:induction false} AllHoldIffNoneNamed<C(!new)>(checks: seq<Check<C>>)
    ensures AllHold(checks) <==> forall code :: !Names(checks, code)
  {
    if !AllHold(checks) {
      var i :| 0 <= i < |checks| && !checks[i].ok;
      assert Names(checks, checks[i].code);
    }
  }

  lemma {:induction false} NamesFive<C>(a: seq<Check<C>>, b: seq<Check<C>>, c: seq<Check<C>>, d: seq<Check<C>>,
                                        e: seq<Check<C>>, code: C)
    ensures Names(a + (b + (c + (d + e))), code) <==>
      Names(a, code) || Names(b, code) || Names(c, code) || Names(d, code) || Names(e, code)
  {
    NamesAppend(a, b + (c + (d + e)), code);
    NamesAppend(b, c + (d + e), code);
    NamesAppend(c, d + e, code);
    NamesAppend(d, e, code);
  }
}
