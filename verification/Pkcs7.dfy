/** The certificate chain walk of pkcs7_verify (compat/verification/pkcs7_verify.c:157-461) and
    the trust walk of pkcs7_validate_trust (compat/verification/pkcs7_trust.c:22-187). */
module Pkcs7 {
  import opened Common
  import opened Pkcs7Chains

  class Message {
    const d: Doc
    var seen: seq<bool>
    var verified: seq<bool>
    var blacklisted: seq<bool>
    var signer: seq<Option<nat>>
    var infoSigner: seq<Option<nat>>
    var infoBlacklisted: seq<bool>
    var infoUnsupported: seq<bool>

    ghost predicate Sized()
      reads this
    {
      && |seen| == |verified| == |blacklisted| == |signer| == |d.certs|
      && |infoSigner| == |infoBlacklisted| == |infoUnsupported| == |d.infos|
      && (forall k :: 0 <= k < |infoSigner| && infoSigner[k].Some? ==> infoSigner[k].value < |d.certs|)
    }

    /** A freshly parsed message; certificates may already be blacklisted. */
    constructor (d: Doc, blacklisted: seq<bool>)
      requires |blacklisted| == |d.certs|
      ensures this.d == d && this.blacklisted == blacklisted && Sized()
      ensures forall c :: 0 <= c < |d.certs| ==> signer[c].None? && !verified[c]
      ensures forall k :: 0 <= k < |d.infos| ==> infoSigner[k].None? && !infoBlacklisted[k] && !infoUnsupported[k]
    {
      this.d, this.blacklisted := d, blacklisted;
      seen, verified := seq(|d.certs|, _ => false), seq(|d.certs|, _ => false);
      signer := seq(|d.certs|, _ => None);
      infoSigner := seq(|d.infos|, _ => None);
      infoBlacklisted, infoUnsupported := seq(|d.infos|, _ => false), seq(|d.infos|, _ => false);
    }

    method ResetSeen()
      requires Sized()
      modifies this`seen
      ensures Sized() && forall c :: 0 <= c < |seen| ==> !seen[c]
    {
      var p := 0;
      while p < |seen|
        invariant 0 <= p <= |seen| == |d.certs| && forall c :: 0 <= c < p ==> !seen[c]
      {
        seen := seen[p := false];
        p := p + 1;
      }
    }

    /** The list searches of pkcs7_verify.c:166-179 and 248-268. */
    method FindFirst(bySkid: bool, auth: Option<KeyId>) returns (r: Option<nat>)
      ensures IsFirst(d, bySkid, auth, r)
    {
      var p: nat := 0;
      while p < |d.certs|
        invariant p <= |d.certs| && forall j: nat :: j < p ==> !Matches(d, bySkid, auth, j)
      {
        if Matches(d, bySkid, auth, p) {
          return Some(p);
        }
        p := p + 1;
      }
      return None;
    }

    method FindIssuer(c: nat) returns (r: Option<nat>)
      requires c < |d.certs|
      ensures IsIssuer(d, c, r)
    {
      var sig := d.certs[c].sig;
      if sig.auth0.Some? {
        r := FindFirst(false, sig.auth0);
      } else if sig.auth1.Some? {
        r := FindFirst(true, sig.auth1);
      } else {
        r := None;
      }
    }

    /** pkcs7_verify.c:217-218: everything from the signer of info `k` up to `x`. */
    method MarkBlacklisted(first: nat, x: nat, ghost chain: seq<nat>)
      requires Sized() && Linked(signer, first, chain, x) && NoDup(chain)
      modifies this`blacklisted
      ensures Sized()
      ensures forall c :: 0 <= c < |d.certs| ==> blacklisted[c] == (old(blacklisted[c]) || c in chain[..|chain| - 1])
    {
      var p := first;
      ghost var i := 0;
      while p != x
        invariant Sized() && 0 <= i < |chain| && p == chain[i]
        invariant forall c :: 0 <= c < |d.certs| ==> blacklisted[c] == (old(blacklisted[c]) || c in chain[..i])
        decreases |chain| - i
      {
        assert chain[..i + 1] == chain[..i] + [chain[i]] && signer[chain[i]] == Some(chain[i + 1]);
        blacklisted := blacklisted[p := true];
        p := signer[p].value;
        i := i + 1;
      }
      assert i == |chain| - 1;
    }

    /** One turn of the loop of pkcs7_verify.c:206-301: the next certificate, or the end. */
    method ChainStep(k: nat, x: nat, ghost first: nat, ghost chain: seq<nat>, ghost before: seq<Option<nat>>)
      returns (next: Option<nat>, ret: int)
      requires Sized() && k < |d.infos| && infoSigner[k] == Some(first)
      requires Walking(d, blacklisted, before, signer, seen, first, chain, x)
      modifies this`signer, this`blacklisted, this`infoBlacklisted
      ensures Sized()
      ensures next.Some? ==>
        && blacklisted == old(blacklisted) && infoBlacklisted == old(infoBlacklisted)
        && next.value < |seen| && !seen[next.value]
        && Walking(d, blacklisted, before, signer, seen[next.value := true], first, chain + [next.value], next.value)
      ensures next.None? ==>
        && WalkDone(d, old(blacklisted), before, signer, first, chain, x, ret)
        && MarkedBlack(k, old(blacklisted), old(infoBlacklisted), chain, x)
    {
      next, ret := None, 0;
      if blacklisted[x] {
        Blacklist(k, x, chain);
      } else if d.certs[x].selfSigned {
        EndSelfSigned(x, first, chain, before);
      } else {
        next, ret := GoToIssuer(x, first, chain, before);
      }
    }

    /** pkcs7_verify.c:212-221. */
    method Blacklist(k: nat, x: nat, ghost chain: seq<nat>)
      requires Sized() && k < |d.infos| && infoSigner[k].Some? && x < |d.certs| && blacklisted[x]
      requires Linked(signer, infoSigner[k].value, chain, x) && NoDup(chain)
      modifies this`blacklisted, this`infoBlacklisted
      ensures Sized() && MarkedBlack(k, old(blacklisted), old(infoBlacklisted), chain, x)
    {
      infoBlacklisted := infoBlacklisted[k := true];
      MarkBlacklisted(infoSigner[k].value, x, chain);
      assert chain == chain[..|chain| - 1] + [x];
    }

    /** pkcs7_verify.c:232-243. */
    method EndSelfSigned(x: nat, ghost first: nat, ghost chain: seq<nat>, ghost before: seq<Option<nat>>)
      requires Sized() && Walking(d, blacklisted, before, signer, seen, first, chain, x)
      requires !blacklisted[x] && d.certs[x].selfSigned
      modifies this`signer
      ensures Sized() && WalkDone(d, blacklisted, before, signer, first, chain, x, 0)
    {
      if !d.certs[x].unsupportedSig {
        WalkSelf(d, blacklisted, before, signer, seen, first, chain, x);
        signer := signer[x := Some(x)];
      }
    }

    /** pkcs7_verify.c:245-299. The test `x509 == p` has no counterpart: `x` is seen, `p` is not. */
    method GoToIssuer(x: nat, ghost first: nat, ghost chain: seq<nat>, ghost before: seq<Option<nat>>)
      returns (next: Option<nat>, ret: int)
      requires Sized() && Walking(d, blacklisted, before, signer, seen, first, chain, x)
      requires !blacklisted[x] && !d.certs[x].selfSigned
      modifies this`signer
      ensures Sized()
      ensures next.Some? ==>
        && next.value < |seen| && !seen[next.value]
        && Walking(d, blacklisted, before, signer, seen[next.value := true], first, chain + [next.value], next.value)
      ensures next.None? ==> signer == old(signer) && WalkDone(d, blacklisted, before, signer, first, chain, x, ret)
    {
      next, ret := None, 0;
      var p := FindIssuer(x);
      if p.None? {
        return;
      }
      if SkidClash(d, x, p.value) {
        ret := -EKEYREJECTED;
        return;
      }
      if seen[p.value] {
        return;
      }
      ret := d.verify(d.certs[p.value].pub, d.certs[x].sig);
      if ret < 0 {
        return;
      }
      WalkOn(d, blacklisted, before, signer, seen, first, chain, x, p.value);
      signer := signer[x := p];
      next := p;
    }

    /** If the walk met a blacklisted certificate, the info and the whole chain are blacklisted. */
    ghost predicate MarkedBlack(k: nat, black: seq<bool>, infoBlack: seq<bool>, chain: seq<nat>, x: nat)
      reads this
    {
      && k < |infoBlack| && x < |black| == |blacklisted|
      && infoBlacklisted == (if black[x] then infoBlack[k := true] else infoBlack)
      && forall c :: 0 <= c < |black| ==> blacklisted[c] == (black[c] || (black[x] && c in chain))
    }

    /** pkcs7_verify_sig_chain. It ends on every list of certificates; `chain` is the way it went
        and `x` where it stopped. */
    method VerifySigChain(k: nat) returns (ret: int, ghost chain: seq<nat>, ghost end: nat)
      requires Sized() && k < |d.infos| && infoSigner[k].Some? && AllBacked(d, signer)
      modifies this`seen, this`signer, this`blacklisted, this`infoBlacklisted
      ensures Sized()
      ensures WalkDone(d, old(blacklisted), old(signer), signer, infoSigner[k].value, chain, end, ret)
      ensures MarkedBlack(k, old(blacklisted), old(infoBlacklisted), chain, end)
    {
      var x: nat := infoSigner[k].value;
      ResetSeen();
      chain := [x];
      ghost var left: set<int> := set c | 0 <= c < |d.certs| && !seen[c];
      while true
        invariant Sized() && x < |d.certs| && !seen[x]
        invariant blacklisted == old(blacklisted) && infoBlacklisted == old(infoBlacklisted)
        invariant Walking(d, blacklisted, old(signer), signer, seen[x := true], infoSigner[k].value, chain, x)
        invariant forall c :: c in left <==> 0 <= c < |d.certs| && !seen[c]
        decreases left
      {
        seen := seen[x := true];
        var next;
        next, ret := ChainStep(k, x, infoSigner[k].value, chain, old(signer));
        if next.None? {
          end := x;
          return;
        }
        left := left - {x};
        chain := chain + [next.value];
        x := next.value;
      }
    }

    /** pkcs7_verify_one; `black0` are the certificates blacklisted to begin with. The info gets
        blacklisted if and only if it was examined and its chain leads to one of them. */
    method VerifyOne(k: nat, ghost black0: seq<bool>) returns (ret: int)
      requires Sized() && k < |d.infos| && AllBacked(d, signer) && BlackGrown(d, black0, blacklisted)
      modifies this`seen, this`signer, this`blacklisted, this`infoBlacklisted, this`infoSigner
      ensures Sized() && AllBacked(d, signer) && ret <= 0 && BlackGrown(d, black0, blacklisted)
      ensures infoSigner == old(infoSigner)[k := infoSigner[k]]
      ensures d.digest(k) >= 0 ==> Assigned(d, k, old(infoSigner)[k], infoSigner[k])
      ensures d.digest(k) < 0 ==> infoSigner[k] == old(infoSigner)[k]
      ensures infoBlacklisted == old(infoBlacklisted)[k := infoBlacklisted[k]]
      ensures infoBlacklisted[k] <==>
        old(infoBlacklisted)[k] || (Examined(d, infoSigner[k], k) && LeadsToBlack(d, black0, infoSigner[k].value))
      ensures Answered(d, black0, infoSigner[k], k, ret)
      ensures ret == 0 ==> InfoOk(d, infoSigner[k], k)
    {
      ret := d.digest(k);
      if ret < 0 {
        return;
      }
      var r := FindFirst(false, d.infos[k].sig.auth0);
      if r.Some? {
        infoSigner := infoSigner[k := r];
      }
      ret := 0;
      if infoSigner[k].None? {
        return;
      }
      ret := CheckSigned(k, black0);
    }

    /** pkcs7_verify.c:341-361, once the certificate of the info is known. */
    method CheckSigned(k: nat, ghost black0: seq<bool>) returns (ret: int)
      requires Sized() && k < |d.infos| && infoSigner[k].Some? && AllBacked(d, signer) && BlackGrown(d, black0, blacklisted)
      requires d.digest(k) >= 0
      modifies this`seen, this`signer, this`blacklisted, this`infoBlacklisted
      ensures Sized() && AllBacked(d, signer) && ret <= 0 && BlackGrown(d, black0, blacklisted)
      ensures var marks := Examined(d, infoSigner[k], k) && LeadsToBlack(d, black0, infoSigner[k].value);
              infoBlacklisted == if marks then old(infoBlacklisted)[k := true] else old(infoBlacklisted)
      ensures Answered(d, black0, infoSigner[k], k, ret) && (ret == 0 ==> InfoOk(d, infoSigner[k], k))
    {
      var c := d.certs[infoSigner[k].value];
      if !InTime(d.infos[k], c) {
        return -EKEYREJECTED;
      }
      ret := d.verify(c.pub, d.infos[k].sig);
      if ret < 0 {
        return;
      }
      ret := WalkAndMark(k, black0);
    }

    /** The walk, seen from the certificates that were blacklisted to begin with. */
    method WalkAndMark(k: nat, ghost black0: seq<bool>) returns (ret: int)
      requires Sized() && k < |d.infos| && infoSigner[k].Some? && AllBacked(d, signer) && BlackGrown(d, black0, blacklisted)
      modifies this`seen, this`signer, this`blacklisted, this`infoBlacklisted
      ensures Sized() && AllBacked(d, signer) && ret <= 0 && BlackGrown(d, black0, blacklisted)
      ensures var leads := LeadsToBlack(d, black0, infoSigner[k].value);
        && infoBlacklisted == (if leads then old(infoBlacklisted)[k := true] else old(infoBlacklisted))
        && if leads then ret == 0 else WalkEnds(d, infoSigner[k].value, ret)
    {
      ghost var black, before, first := blacklisted, signer, infoSigner[k].value;
      ghost var chain, end;
      ret, chain, end := VerifySigChain(k);
      WalkMeetsBlack(d, black, before, signer, first, chain, end, ret);
      LeadsSame(d, black0, black, first);
      MarksGrow(d, black0, black, blacklisted, before, signer, first, chain, end, ret);
      if !black[end] {
        WalkAnswers(d, black, before, signer, first, chain, end, ret);
      }
    }

    /** Nothing has been found out about the info yet. */
    ghost predicate Fresh(k: nat)
      reads this
      requires k < |d.infos| == |infoSigner| == |infoBlacklisted| == |infoUnsupported|
    {
      infoSigner[k].None? && !infoBlacklisted[k] && !infoUnsupported[k]
    }

    /** The infos before `n` were dealt with, with these answers; the others are untouched. */
    ghost predicate HandledUpto(black0: seq<bool>, n: int, rets: seq<int>)
      reads this
    {
      && Sized() && AllBacked(d, signer) && BlackGrown(d, black0, blacklisted) && 0 <= n == |rets| <= |d.infos|
      && (forall j :: n <= j < |d.infos| ==> Fresh(j))
      && (forall j :: 0 <= j < n ==> Handled(d, black0, j, infoSigner[j], infoBlacklisted[j], infoUnsupported[j], rets[j]))
    }

    /** The loop of pkcs7_verify (lines 441-457) on a freshly parsed message: every signer link
        is backed, on success every signed info was dealt with, and `rets`, the answers for the
        single infos, combine as promised. */
    method Verify() returns (ret: int, ghost rets: seq<int>)
      requires Sized() && AllBacked(d, signer) && forall k :: 0 <= k < |d.infos| ==> Fresh(k)
      modifies this`seen, this`signer, this`blacklisted, this`infoBlacklisted, this`infoSigner, this`infoUnsupported
      ensures Sized() && AllBacked(d, signer) && ret <= 0 && BlackGrown(d, old(blacklisted), blacklisted)
      ensures Concluded(rets, infoBlacklisted, |d.infos|, ret)
      ensures AllTold(d, old(blacklisted), infoSigner, infoBlacklisted, rets)
      ensures ret == 0 ==> HandledUpto(old(blacklisted), |d.infos|, rets)
    {
      ghost var black0 := blacklisted;
      BlackStart(d, black0);
      var actual := -ENOPKG;
      var k := 0;
      rets := [];
      while k < |d.infos|
        invariant HandledUpto(black0, k, rets) && AllTold(d, black0, infoSigner, infoBlacklisted, rets)
        invariant Tally(rets, infoBlacklisted, actual)
      {
        ghost var black := infoBlacklisted;
        var r := HandleInfo(k, black0, rets);
        TallyStep(rets, black, infoBlacklisted, actual, r);
        rets := rets + [r];
        if Fatal(r, infoBlacklisted[k]) {
          return r, rets;
        }
        actual := Update(actual, r, infoBlacklisted[k]);
        k := k + 1;
      }
      TallyIsConclusion(rets, infoBlacklisted, actual);
      return actual, rets;
    }

    /** One turn of that loop, up to the combination of the answers. */
    method HandleInfo(k: nat, ghost black0: seq<bool>, ghost rets: seq<int>) returns (ret: int)
      requires k < |d.infos| && HandledUpto(black0, k, rets)
      modifies this`seen, this`signer, this`blacklisted, this`infoBlacklisted, this`infoSigner, this`infoUnsupported
      ensures Sized() && AllBacked(d, signer) && ret <= 0 && BlackGrown(d, black0, blacklisted)
      ensures infoBlacklisted == old(infoBlacklisted)[k := infoBlacklisted[k]]
      ensures !Fatal(ret, infoBlacklisted[k]) ==> HandledUpto(black0, k + 1, rets + [ret])
      ensures AllTold(d, black0, infoSigner, infoBlacklisted, rets + [ret])
    {
      assert Fresh(k);
      ret := VerifyOne(k, black0);
      if !infoBlacklisted[k] && ret == -ENOPKG {
        infoUnsupported := infoUnsupported[k := true];
      }
      ghost var rets' := rets + [ret];
      forall j | 0 <= j < k + 1 ensures Told(d, black0, j, infoSigner[j], infoBlacklisted[j], rets'[j]) {
        if j < k {
          assert Handled(d, black0, j, old(infoSigner)[j], old(infoBlacklisted)[j], old(infoUnsupported)[j], rets[j]);
        }
      }
      if !Fatal(ret, infoBlacklisted[k]) {
        forall j | 0 <= j < k + 1
          ensures Handled(d, black0, j, infoSigner[j], infoBlacklisted[j], infoUnsupported[j], rets'[j])
        {
          if j < k {
            assert Handled(d, black0, j, old(infoSigner)[j], old(infoBlacklisted)[j], old(infoUnsupported)[j], rets[j]);
          }
        }
        forall j | k + 1 <= j < |d.infos| ensures Fresh(j) {
          assert old(Fresh(j));
        }
      }
    }

    /** pkcs7_trust.c:126-128: `x` and everything from the signer of the info up to it. */
    method MarkVerified(first: nat, x: nat, ghost chain: seq<nat>) returns (ghost n: nat)
      requires Sized() && Linked(signer, first, chain, x)
      modifies this`verified
      ensures Sized() && n < |chain| && chain[n] == x && x !in chain[..n]
      ensures forall c :: 0 <= c < |d.certs| ==> verified[c] == (old(verified[c]) || c in chain[..n + 1])
    {
      verified := verified[x := true];
      var p := first;
      n := 0;
      while p != x
        invariant Sized() && 0 <= n < |chain| && p == chain[n] && x !in chain[..n]
        invariant forall c :: 0 <= c < |d.certs| ==> verified[c] == (old(verified[c]) || c == x || c in chain[..n])
        decreases |chain| - n
      {
        assert chain[..n + 1] == chain[..n] + [chain[n]] && signer[chain[n]] == Some(chain[n + 1]);
        verified := verified[p := true];
        p := signer[p].value;
        n := n + 1;
      }
      assert chain[..n + 1] == chain[..n] + [x];
    }

    /** pkcs7_trust.c:39-71: one certificate on the way; None to go on. */
    method Inspect(k: nat, c: nat, sig: Sig, ghost chain: seq<nat>) returns (o: Option<Outcome>)
      requires Sized() && k < |d.infos| && c < |d.certs| && infoSigner[k].Some?
      requires Linked(signer, infoSigner[k].value, chain, c)
      requires Vouches(d, d.certs[c].id, d.certs[c].skid, sig) ==> Anchor(d, signer, infoSigner, c)
      modifies this`seen
      ensures o.Some? ==> Delivered(d, signer, infoSigner, verified, k, chain, o.value)
      ensures Sized() && seen == old(seen)[c := true]
      ensures o == Look(d, signer, old(seen)[c], verified[c], c, sig)
    {
      if seen[c] {
        return Some(if verified[c] then Cached(c) else GaveUp(-ENOKEY));
      }
      seen := seen[c := true];
      var found := d.find(d.certs[c].id, d.certs[c].skid);
      if found.Found? {
        return Some(Matched(Some(c), found.key, sig));
      }
      if found.error == -ENOMEM {
        return Some(GaveUp(-ENOMEM));
      }
      return if signer[c] == Some(c) then Some(GaveUp(-ENOKEY)) else None;
    }

    /** pkcs7_trust.c:38-76: along the signer links to the first certificate that settles the
        matter; None when the top was reached without that. */
    method ClimbSigners(k: nat) returns (o: Option<Outcome>, last: Option<nat>, ghost chain: seq<nat>)
      requires Sized() && k < |d.infos| && AllBacked(d, signer)
      modifies this`seen
      ensures Sized()
      ensures o.Some? ==> Delivered(d, signer, infoSigner, verified, k, chain, o.value)
      ensures o.None? && last.Some? ==> last.value < |d.certs| && Climbed(d, signer, infoSigner, k, chain, last, None, d.certs[last.value].sig)
      ensures Started(d, signer, infoSigner, old(seen), verified, k)
      ensures ClimbFrom(d, signer, infoSigner, old(seen), verified, k) == if o.Some? then Settled(o.value) else Top(last)
      ensures Unseen(seen) == ClimbLeaves(d, signer, Unseen(old(seen)), verified, infoSigner[k], d.infos[k].sig)
    {
      var x, sig := infoSigner[k], d.infos[k].sig;
      last, chain := None, [];
      ghost var left := Unseen(seen);
      ghost var all := Climb(d, signer, left, verified, x, last, sig);
      ghost var leaves := ClimbLeaves(d, signer, left, verified, x, sig);
      while x.Some?
        invariant Sized() && Climbed(d, signer, infoSigner, k, chain, last, x, sig)
        invariant left == Unseen(seen)
        invariant Climb(d, signer, left, verified, x, last, sig) == all
        invariant ClimbLeaves(d, signer, left, verified, x, sig) == leaves
        decreases left
      {
        var c := x.value;
        ClimbTo(d, signer, infoSigner, k, chain, last, c, sig);
        chain := Upto(last, chain, c);
        o := Inspect(k, c, sig, chain);
        assert Unseen(seen) == left - {c};
        if o.Some? {
          return;
        }
        left := left - {c};
        ClimbPast(d, signer, infoSigner, k, chain, c);
        last, sig, x := x, d.certs[c].sig, signer[c];
      }
      o := None;
    }

    /** pkcs7_trust.c:78-112: the signer of the topmost certificate, then of the info itself. */
    method LookAbove(k: nat, last: Option<nat>, ghost chain: seq<nat>) returns (o: Outcome)
      requires Sized() && k < |d.infos|
      requires last.Some? ==> last.value < |d.certs| && Climbed(d, signer, infoSigner, k, chain, last, None, d.certs[last.value].sig)
      ensures Delivered(d, signer, infoSigner, verified, k, chain, o) && o == Above(d, k, last)
    {
      if last.Some? {
        var sig := d.certs[last.value].sig;
        if sig.auth0.Some? || sig.auth1.Some? {
          var found := d.find(sig.auth0, sig.auth1);
          if found.Found? {
            return Matched(last, found.key, sig);
          }
          if found.error != -ENOKEY {
            return GaveUp(found.error);
          }
        }
      }
      var found := d.find(d.infos[k].sig.auth0, None);
      return if found.Found? then Matched(None, found.key, d.infos[k].sig) else GaveUp(found.error);
    }

    /** pkcs7_trust.c:38-112: what the answer rests on. */
    method Decide(k: nat) returns (outcome: Outcome, ghost chain: seq<nat>)
      requires Sized() && k < |d.infos| && AllBacked(d, signer)
      modifies this`seen
      ensures Sized() && Delivered(d, signer, infoSigner, verified, k, chain, outcome)
      ensures Started(d, signer, infoSigner, old(seen), verified, k)
      ensures Grounds(d, signer, infoSigner, old(seen), verified, k) == outcome
      ensures Unseen(seen) == ClimbLeaves(d, signer, Unseen(old(seen)), verified, infoSigner[k], d.infos[k].sig)
    {
      var o, last;
      o, last, chain := ClimbSigners(k);
      if o.Some? {
        outcome := o.value;
      } else {
        outcome := LookAbove(k, last, chain);
      }
    }

    /** pkcs7_validate_trust_one. */
    method TrustOne(k: nat) returns (ret: int)
      requires Sized() && k < |d.infos| && AllBacked(d, signer) && AllReach(d, signer, infoSigner, verified)
      modifies this`seen, this`verified
      ensures Sized() && ret <= 0 && AllReach(d, signer, infoSigner, verified)
      ensures Started(d, signer, infoSigner, old(seen), old(verified), k)
      ensures ret == TrustAnswer(d, signer, infoSigner, infoUnsupported[k], old(seen), old(verified), k)
      ensures if ret < 0 then verified == old(verified) else
        && !infoUnsupported[k] && Trusted(d, signer, infoSigner, k)
        && (Direct(d, k) || (infoSigner[k].Some? && verified[infoSigner[k].value]))
        && forall c :: 0 <= c < |d.certs| && old(verified[c]) ==> verified[c]
      ensures Leaves(d, signer, infoSigner, infoUnsupported[k], k, old(seen), old(verified), seen, verified)
    {
      if infoUnsupported[k] {
        return -ENOPKG;
      }
      var outcome, chain := Decide(k);
      ret := 0;
      if outcome.GaveUp? {
        return outcome.error;
      }
      if outcome.Matched? {
        var r := d.keyVerify(outcome.key, outcome.sig);
        if r < 0 {
          return if r == -ENOMEM then r else -EKEYREJECTED;
        }
      }
      var x := if outcome.Matched? then outcome.cert else Some(outcome.at);
      if x.Some? {
        if outcome.Matched? {
          AnchorReaches(d, signer, infoSigner, x.value);
        }
        Accept(k, x.value, chain);
      }
    }

    /** pkcs7_trust.c:124-129, on a certificate that is known to be trusted. */
    method Accept(k: nat, x: nat, ghost chain: seq<nat>)
      requires Sized() && k < |d.infos| && AllReach(d, signer, infoSigner, verified) && infoSigner[k].Some?
      requires Linked(signer, infoSigner[k].value, chain, x) && Reaches(d, signer, infoSigner, x)
      modifies this`verified
      ensures Sized() && AllReach(d, signer, infoSigner, verified)
      ensures verified[infoSigner[k].value] && forall c :: 0 <= c < |d.certs| && old(verified[c]) ==> verified[c]
      ensures MarkedUpTo(signer, old(verified), verified, infoSigner[k].value, x)
    {
      ghost var n := MarkVerified(infoSigner[k].value, x, chain);
      assert Linked(signer, infoSigner[k].value, chain[..n + 1], x);
      assert chain[..n + 1][..n] == chain[..n];
      forall c | 0 <= c < |verified| && verified[c] ensures Reaches(d, signer, infoSigner, c) {
        if !old(verified)[c] {
          var i :| 0 <= i < n + 1 && chain[i] == c;
          ReachesAlong(d, signer, infoSigner, infoSigner[k].value, chain, x, i);
        }
      }
      assert chain[..n + 1][0] == infoSigner[k].value;
    }

    /** pkcs7_validate_trust: every certificate marked verified reaches, along signer links, one
        at which a keyring key verified a signature; `rets` are the exact answers for the single
        infos, given in the states `seens` and `verifieds`. */
    method ValidateTrust() returns (ret: int, ghost rets: seq<int>, ghost seens: seq<seq<bool>>, ghost verifieds: seq<seq<bool>>)
      requires Sized() && AllBacked(d, signer) && AllReach(d, signer, infoSigner, verified)
      modifies this`seen, this`verified
      ensures Sized() && AllReach(d, signer, infoSigner, verified)
      ensures Combined(rets, |d.infos|, ret) && Replies(d, signer, infoSigner, infoUnsupported, seens, verifieds, rets)
      ensures seens[0] == seq(|d.certs|, _ => false) && verifieds[0] == old(verified)
      ensures seens[|rets|] == seen && verifieds[|rets|] == verified
    {
      ResetSeen();
      var cached, k := -ENOKEY, 0;
      rets, seens, verifieds := [], [seen], [verified];
      assert seen == seq(|d.certs|, _ => false);
      while k < |d.infos|
        invariant Sized() && AllReach(d, signer, infoSigner, verified) && k == |rets| <= |d.infos|
        invariant Replies(d, signer, infoSigner, infoUnsupported, seens, verifieds, rets)
        invariant Combined(rets, k, cached) && Soft(cached)
        invariant seens[k] == seen && verifieds[k] == verified
        invariant seens[0] == seq(|d.certs|, _ => false) && verifieds[0] == old(verified)
      {
        var r := TrustOne(k);
        RepliesMore(d, signer, infoSigner, infoUnsupported, seens, verifieds, rets, seen, verified, r);
        CombinedMore(rets, cached, r);
        rets, seens, verifieds := rets + [r], seens + [seen], verifieds + [verified];
        k := k + 1;
        if !Soft(r) {
          return r, rets, seens, verifieds;
        }
        cached := Merge(cached, r);
      }
      ret := cached;
    }
  }

  /** Verification and then trust validation of a freshly parsed message. If both succeed some
      info is accepted, every accepted info is endorsed, and an accepted info is blacklisted if
      and only if checked issuers lead from its certificate to a blacklisted one. */
  method VerifyAndTrust(d: Doc, blacklisted: seq<bool>) returns (v: int, t: int, ghost m: Message, ghost rets: seq<int>)
    requires |blacklisted| == |d.certs|
    ensures m.d == d && m.Sized() && AllBacked(d, m.signer) && AllReach(d, m.signer, m.infoSigner, m.verified)
    ensures v == 0 && t == 0 ==> |rets| == |d.infos| && 0 in rets
    ensures v == 0 && t == 0 ==> forall k :: 0 <= k < |rets| && rets[k] == 0 ==>
      && Endorsed(d, m.signer, m.infoSigner, k)
      && (m.infoBlacklisted[k] <==> m.infoSigner[k].Some? && LeadsToBlack(d, blacklisted, m.infoSigner[k].value))
  {
    var msg := new Message(d, blacklisted);
    ghost var answers;
    v, answers := msg.Verify();
    ghost var seens, verifieds;
    t, rets, seens, verifieds := msg.ValidateTrust();
    m := msg;
    if v == 0 && t == 0 {
      forall k | 0 <= k < |rets| && rets[k] == 0
        ensures Endorsed(d, m.signer, m.infoSigner, k)
        ensures m.infoBlacklisted[k] <==> m.infoSigner[k].Some? && LeadsToBlack(d, blacklisted, m.infoSigner[k].value)
      {
        assert Reply(d, m.signer, m.infoSigner, m.infoUnsupported[k], seens[k], verifieds[k], k, rets[k]);
        assert Handled(d, blacklisted, k, m.infoSigner[k], m.infoBlacklisted[k], m.infoUnsupported[k], answers[k]);
        TrustedIsEndorsed(d, m.signer, m.infoSigner, k);
      }
    }
  }

  // ----- blacklisted and accepted all the same -----

  /** Two infos: the first names the only certificate, which is blacklisted and which the keyring
      has a key for; the second names none. All checks succeed. */
  function Example(): Doc {
    var known := Sig(0, Some([]), None);
    var cert := Cert(Some([]), None, 0, Sig(1, None, None), false, false, 0, 0);
    Doc([cert], [Info(known, None), Info(Sig(2, None, None), None)],
        (a: Option<KeyId>, b: Option<KeyId>) => a.Some? && a == b, k => 0, (key, sig) => 0,
        (id, skid) => if id == Some([]) then Found(0) else Failed(-ENOKEY), (key, sig) => 0)
  }

  lemma ExampleTold(d: Doc, k: nat, signer: Option<nat>, black: bool, ret: int)
    requires d == Example() && k < 2 && Told(d, [true], k, signer, black, ret)
    ensures ret == 0 && (if k == 0 then signer == Some(0) && black else signer == None && !black)
  {
    assert Path(d, [0]) && LeadsToBlack(d, [true], 0);
    assert Matches(d, false, Some([]), 0) && !Matches(d, false, None, 0);
  }

  lemma ExampleVerified(d: Doc, infoSigner: seq<Option<nat>>, black: seq<bool>, rets: seq<int>, v: int)
    requires d == Example() && |infoSigner| == |black| == 2 && Concluded(rets, black, 2, v)
    requires AllTold(d, [true], infoSigner, black, rets)
    ensures v == 0 && rets == [0, 0] && infoSigner == [Some(0), None] && black == [true, false]
  {
    if |rets| > 0 {
      ExampleTold(d, 0, infoSigner[0], black[0], rets[0]);
    }
    if |rets| > 1 {
      ExampleTold(d, 1, infoSigner[1], black[1], rets[1]);
    }
  }

  lemma ExampleTrusted(d: Doc, signer: seq<Option<nat>>, infoSigner: seq<Option<nat>>, seens: seq<seq<bool>>,
                       verifieds: seq<seq<bool>>, t: int, rets: seq<int>)
    requires d == Example() && infoSigner == [Some(0), None] && Combined(rets, 2, t)
    requires Replies(d, signer, infoSigner, [false, false], seens, verifieds, rets)
    requires seens[0] == seq(1, _ => false)
    ensures t == 0 && rets == [0, -ENOKEY]
  {
    if |rets| > 0 {
      assert Reply(d, signer, infoSigner, false, seens[0], verifieds[0], 0, rets[0]);
      assert 0 in Unseen(seens[0]);
      assert rets[0] == 0;
    }
    if |rets| > 1 {
      assert Reply(d, signer, infoSigner, false, seens[1], verifieds[1], 1, rets[1]);
      assert rets[1] == -ENOKEY;
    }
  }

  /** Both calls succeed, and the one info that is accepted is blacklisted: trust validation does
      not look at that mark. */
  method BlacklistedAccepted() returns (v: int, t: int, black: bool, ghost rets: seq<int>)
    ensures v == 0 && t == 0 && black && rets == [0, -ENOKEY]
  {
    var m := new Message(Example(), [true]);
    v := VerifyExample(m);
    ghost var seens, verifieds;
    t, rets, seens, verifieds := m.ValidateTrust();
    ExampleTrusted(m.d, m.signer, m.infoSigner, seens, verifieds, t, rets);
    black := m.infoBlacklisted[0];
  }

  method VerifyExample(m: Message) returns (v: int)
    requires m.d == Example() && m.blacklisted == [true] && m.Sized() && AllBacked(m.d, m.signer)
    requires forall k :: 0 <= k < 2 ==> m.Fresh(k)
    modifies m`seen, m`signer, m`blacklisted, m`infoBlacklisted, m`infoSigner, m`infoUnsupported
    ensures v == 0 && m.Sized() && AllBacked(m.d, m.signer)
    ensures m.infoSigner == [Some(0), None] && m.infoBlacklisted == [true, false] && m.infoUnsupported == [false, false]
  {
    ghost var answers;
    v, answers := m.Verify();
    ExampleVerified(m.d, m.infoSigner, m.infoBlacklisted, answers, v);
    assert Handled(m.d, [true], 0, m.infoSigner[0], m.infoBlacklisted[0], m.infoUnsupported[0], answers[0]);
    assert Handled(m.d, [true], 1, m.infoSigner[1], m.infoBlacklisted[1], m.infoUnsupported[1], answers[1]);
  }

  // ----- verified directly and refused all the same -----

  /** Two infos name the only certificate. The keyring has a key under its id alone, but none under
      its id and subject key id together. All checks succeed. */
  function Repeated(): Doc {
    var cert := Cert(Some([]), Some([0]), 0, Sig(0, None, None), false, false, 0, 0);
    Doc([cert], [Info(Sig(1, Some([]), None), None), Info(Sig(2, Some([]), None), None)],
        (a: Option<KeyId>, b: Option<KeyId>) => a.Some? && a == b, k => 0, (key, sig) => 0,
        (id: Option<KeyId>, skid: Option<KeyId>) => if id == Some([]) && skid.None? then Found(0) else Failed(-ENOKEY), (key, sig) => 0)
  }

  lemma RepeatedNotBlack(d: Doc)
    requires d == Repeated()
    ensures !LeadsToBlack(d, [false], 0)
  {
    var black := [false];
    forall path | Path(d, path) ensures !black[path[|path| - 1]] {
      assert path[|path| - 1] == 0;
    }
  }

  /** The walk ends where it starts, with success. */
  lemma RepeatedWalk(d: Doc, ret: int)
    requires d == Repeated() && WalkEnds(d, 0, ret)
    ensures ret == 0
  {
    var path: seq<nat> :| Path(d, path) && NoDup(path) && path[0] == 0 && Ended(d, path, false, path[|path| - 1], ret);
    assert path[|path| - 1] == 0;
    assert forall p :: 0 <= p < |d.certs| ==> !IsIssuer(d, 0, Some(p));
  }

  lemma RepeatedTold(d: Doc, k: nat, signer: Option<nat>, black: bool, ret: int)
    requires d == Repeated() && k < 2 && Told(d, [false], k, signer, black, ret)
    ensures signer == Some(0) && !black && ret == 0
  {
    assert Matches(d, false, Some([]), 0);
    RepeatedNotBlack(d);
    RepeatedWalk(d, ret);
  }

  lemma RepeatedVerified(d: Doc, infoSigner: seq<Option<nat>>, black: seq<bool>, rets: seq<int>, v: int)
    requires d == Repeated() && |infoSigner| == |black| == 2 && Concluded(rets, black, 2, v)
    requires AllTold(d, [false], infoSigner, black, rets)
    ensures v == 0 && rets == [0, 0] && infoSigner == [Some(0), Some(0)] && black == [false, false]
  {
    if |rets| > 0 {
      RepeatedTold(d, 0, infoSigner[0], black[0], rets[0]);
    }
    if |rets| > 1 {
      RepeatedTold(d, 1, infoSigner[1], black[1], rets[1]);
    }
  }

  method VerifyRepeated(m: Message) returns (v: int)
    requires m.d == Repeated() && m.blacklisted == [false] && m.Sized() && AllBacked(m.d, m.signer)
    requires forall k :: 0 <= k < 2 ==> m.Fresh(k)
    modifies m`seen, m`signer, m`blacklisted, m`infoBlacklisted, m`infoSigner, m`infoUnsupported
    ensures v == 0 && m.Sized() && AllBacked(m.d, m.signer)
    ensures m.infoSigner == [Some(0), Some(0)] && m.infoUnsupported == [false, false]
  {
    ghost var answers;
    v, answers := m.Verify();
    RepeatedVerified(m.d, m.infoSigner, m.infoBlacklisted, answers, v);
    assert Handled(m.d, [false], 0, m.infoSigner[0], m.infoBlacklisted[0], m.infoUnsupported[0], answers[0]);
    assert Handled(m.d, [false], 1, m.infoSigner[1], m.infoBlacklisted[1], m.infoUnsupported[1], answers[1]);
  }

  lemma RepeatedLinks(d: Doc, signer: seq<Option<nat>>)
    requires d == Repeated() && AllBacked(d, signer)
    ensures signer == [None]
  {
    assert forall p :: !Backed(d, 0, p);
  }

  /** The first info is accepted through the direct key, and leaves its certificate seen but not
      marked as verified. */
  lemma RepeatedFirst(d: Doc, seen: seq<bool>, seen': seq<bool>, verified': seq<bool>, ret: int)
    requires d == Repeated() && seen == seq(1, _ => false)
    requires Reply(d, [None], [Some(0), Some(0)], false, seen, [false], 0, ret)
    requires Leaves(d, [None], [Some(0), Some(0)], false, 0, seen, [false], seen', verified')
    ensures ret == 0 && verified' == [false] && |seen'| == 1 && seen'[0]
  {
    assert 0 in Unseen(seen);
    assert Climb(d, [None], Unseen(seen) - {0}, [false], None, Some(0), d.certs[0].sig) == Top(Some(0));
    assert ClimbLeaves(d, [None], Unseen(seen) - {0}, [false], None, d.certs[0].sig) == Unseen(seen) - {0};
    assert 0 !in Unseen(seen');
  }

  lemma RepeatedTrusted(d: Doc, signer: seq<Option<nat>>, seens: seq<seq<bool>>, verifieds: seq<seq<bool>>, t: int, rets: seq<int>)
    requires d == Repeated() && AllBacked(d, signer) && Combined(rets, 2, t)
    requires Replies(d, signer, [Some(0), Some(0)], [false, false], seens, verifieds, rets)
    requires seens[0] == seq(1, _ => false) && verifieds[0] == [false]
    ensures t == 0 && rets == [0, -ENOKEY]
  {
    RepeatedLinks(d, signer);
    if |rets| > 0 {
      RepeatedFirst(d, seens[0], seens[1], verifieds[1], rets[0]);
    }
    if |rets| > 1 {
      assert Reply(d, signer, [Some(0), Some(0)], false, seens[1], verifieds[1], 1, rets[1]);
      CachedSkipsDirect(d, signer, [Some(0), Some(0)], seens[1], verifieds[1], 1, 0);
    }
  }

  /** A keyring key verifies both infos directly, the first is accepted for it and the second is
      not: the certificate they share has been looked at by then. */
  method DirectRefused() returns (v: int, t: int, ghost d: Doc, ghost rets: seq<int>)
    ensures d == Repeated() && Direct(d, 0) && Direct(d, 1) && v == 0 && t == 0 && rets == [0, -ENOKEY]
  {
    var m := new Message(Repeated(), [false]);
    v := VerifyRepeated(m);
    ghost var seens, verifieds;
    ghost var verified0 := m.verified;
    t, rets, seens, verifieds := m.ValidateTrust();
    d := m.d;
    assert verified0 == [false];
    RepeatedTrusted(m.d, m.signer, seens, verifieds, t, rets);
  }
}
