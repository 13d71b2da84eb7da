/** Certificates, signer links and trust: what the walks of compat/verification/pkcs7_verify.c
    and compat/verification/pkcs7_trust.c are about. */
module Pkcs7Chains {
  import opened Common

  // ----- the parsed message and its surroundings -----

  type KeyId = seq<bv8>
  type PublicKey = nat

  /** Signature parameters; `bits` stands for digest and signature. */
  datatype Sig = Sig(bits: nat, auth0: Option<KeyId>, auth1: Option<KeyId>)

  datatype Cert = Cert(id: Option<KeyId>, skid: Option<KeyId>, pub: PublicKey, sig: Sig,
                       selfSigned: bool, unsupportedSig: bool, validFrom: int, validTo: int)

  datatype Info = Info(sig: Sig, signingTime: Option<int>)

  type Errno = e: int | e < 0 witness -1

  datatype Lookup = Found(key: PublicKey) | Failed(error: Errno)

  /** The certificates and signed infos in list order, and the outside functions: key id
      comparison, message digest of an info, signature checks, and the trust keyring. */
  datatype Doc = Doc(certs: seq<Cert>, infos: seq<Info>,
                     same: (Option<KeyId>, Option<KeyId>) -> bool,
                     digest: nat -> int,
                     verify: (PublicKey, Sig) -> int,
                     find: (Option<KeyId>, Option<KeyId>) -> Lookup,
                     keyVerify: (PublicKey, Sig) -> int)

  const ENOMEM := 12
  const ENOPKG := 65
  const ENOKEY := 126
  const EKEYREJECTED := 129

  // ----- issuers -----

  predicate Matches(d: Doc, bySkid: bool, auth: Option<KeyId>, i: nat)
    requires i < |d.certs|
  {
    if bySkid then d.certs[i].skid.Some? && d.same(d.certs[i].skid, auth) else d.same(d.certs[i].id, auth)
  }

  /** `r` is the first certificate of the list that matches, if there is one. */
  ghost predicate IsFirst(d: Doc, bySkid: bool, auth: Option<KeyId>, r: Option<nat>) {
    match r
    case Some(p) => p < |d.certs| && Matches(d, bySkid, auth, p) && forall j: nat :: j < p ==> !Matches(d, bySkid, auth, j)
    case None => forall j: nat :: j < |d.certs| ==> !Matches(d, bySkid, auth, j)
  }

  /** `r` is the issuer that certificate `c` names, by issuer and serial if it has them, by
      subject key id otherwise. */
  ghost predicate IsIssuer(d: Doc, c: nat, r: Option<nat>)
    requires c < |d.certs|
  {
    var sig := d.certs[c].sig;
    if sig.auth0.Some? then IsFirst(d, false, sig.auth0, r)
    else if sig.auth1.Some? then IsFirst(d, true, sig.auth1, r)
    else r.None?
  }

  /** The issuer matches by serial, but not the subject key id that is also demanded. */
  predicate SkidClash(d: Doc, c: nat, p: nat)
    requires c < |d.certs| && p < |d.certs|
  {
    var sig := d.certs[c].sig;
    sig.auth0.Some? && sig.auth1.Some? && !d.same(d.certs[p].skid, sig.auth1)
  }

  predicate Checks(d: Doc, c: nat, p: nat)
    requires c < |d.certs| && p < |d.certs|
  {
    d.verify(d.certs[p].pub, d.certs[c].sig) >= 0
  }

  /** A signer link from `c` to `p` is backed: `p` is the issuer `c` names and its key verified
      the signature on `c`, or `c` was found to be self-signed when it was parsed. */
  ghost predicate Backed(d: Doc, c: nat, p: nat) {
    && c < |d.certs| && p < |d.certs|
    && (|| (p == c && d.certs[c].selfSigned && !d.certs[c].unsupportedSig)
        || (!d.certs[c].selfSigned && IsIssuer(d, c, Some(p)) && !SkidClash(d, c, p) && Checks(d, c, p)))
  }

  /** What stands behind a link: the issuer has the issuer and serial that the certificate names, and
      the subject key id that it names, as far as it names them, and it names one of them; no earlier
      certificate of the list fits; and the issuer's key verified the signature. */
  lemma BackedMeans(d: Doc, c: nat, p: nat)
    requires Backed(d, c, p) && !d.certs[c].selfSigned
    ensures var sig := d.certs[c].sig;
            && (sig.auth0.Some? || sig.auth1.Some?) && d.verify(d.certs[p].pub, sig) >= 0
            && (sig.auth0.Some? ==> d.same(d.certs[p].id, sig.auth0))
            && (sig.auth0.None? || sig.auth1.Some? ==> d.same(d.certs[p].skid, sig.auth1))
            && forall q: nat :: q < p ==>
                 if sig.auth0.Some? then !d.same(d.certs[q].id, sig.auth0)
                 else d.certs[q].skid.None? || !d.same(d.certs[q].skid, sig.auth1)
  {
    var sig := d.certs[c].sig;
    forall q: nat | q < p
      ensures if sig.auth0.Some? then !d.same(d.certs[q].id, sig.auth0)
              else d.certs[q].skid.None? || !d.same(d.certs[q].skid, sig.auth1)
    {
      assert !Matches(d, sig.auth0.None?, if sig.auth0.Some? then sig.auth0 else sig.auth1, q);
    }
  }

  ghost predicate AllBacked(d: Doc, signer: seq<Option<nat>>) {
    |signer| == |d.certs| && forall c :: 0 <= c < |signer| && signer[c].Some? ==> Backed(d, c, signer[c].value)
  }

  // ----- chains of signer links -----

  /** A chain from `from` to `to` along the signer links. */
  ghost predicate Linked(signer: seq<Option<nat>>, from: nat, chain: seq<nat>, to: nat) {
    && |chain| > 0 && chain[0] == from && chain[|chain| - 1] == to
    && (forall i :: 0 <= i < |chain| ==> chain[i] < |signer|)
    && forall i :: 0 <= i < |chain| - 1 ==> signer[chain[i]] == Some(chain[i + 1])
  }

  lemma LinkedSnoc(signer: seq<Option<nat>>, from: nat, chain: seq<nat>, to: nat, p: nat)
    requires Linked(signer, from, chain, to) && to < |signer| && signer[to] == Some(p) && p < |signer|
    ensures Linked(signer, from, chain + [p], p)
  {
  }

  lemma LinkedSuffix(signer: seq<Option<nat>>, from: nat, chain: seq<nat>, to: nat, i: nat)
    requires Linked(signer, from, chain, to) && i < |chain|
    ensures Linked(signer, chain[i], chain[i..], to)
  {
  }

  lemma LinkedJoin(signer: seq<Option<nat>>, from: nat, a: seq<nat>, mid: nat, b: seq<nat>, to: nat)
    requires Linked(signer, from, a, mid) && Linked(signer, mid, b, to)
    ensures Linked(signer, from, a + b[1..], to)
  {
    var j := a + b[1..];
    forall i | 0 <= i < |j| - 1 ensures signer[j[i]] == Some(j[i + 1]) {
      if i >= |a| - 1 {
        assert j[i + 1] == b[i + 1 - |a| + 1];
        assert j[i] == b[i + 1 - |a|];
      }
    }
  }

  // ----- what one walk of pkcs7_verify_sig_chain does -----

  /** Why and how the walk ended at the last certificate of `chain`. */
  ghost predicate Ended(d: Doc, chain: seq<nat>, black: bool, last: nat, ret: int)
    requires last < |d.certs|
  {
    var c := d.certs[last];
    if black || c.selfSigned then ret == 0
    else
      || (IsIssuer(d, last, None) && ret == 0)
      || (exists p :: 0 <= p < |d.certs| && IsIssuer(d, last, Some(p)) &&
            if SkidClash(d, last, p) then ret == -EKEYREJECTED
            else if p in chain then ret == 0
            else ret == d.verify(d.certs[p].pub, c.sig) && ret < 0)
  }

  /** The certificates on the way to the last one were passed because none is black or
      self-signed and each link was checked; nothing else was linked. */
  ghost predicate Walked(d: Doc, black: seq<bool>, before: seq<Option<nat>>, signer: seq<Option<nat>>, chain: seq<nat>) {
    && NoDup(chain)
    && (forall i :: 0 <= i < |chain| - 1 ==> chain[i] < |black| && !black[chain[i]])
    && (forall i :: 0 <= i < |chain| - 1 ==> Backed(d, chain[i], chain[i + 1]) && chain[i + 1] != chain[i])
    && |before| == |signer|
    && (forall c :: 0 <= c < |signer| && c !in chain ==> signer[c] == before[c])
  }

  /** The walk stands at `x`, the last certificate of `chain`, all of which is seen. */
  ghost predicate Walking(d: Doc, black: seq<bool>, before: seq<Option<nat>>, signer: seq<Option<nat>>,
                          seen: seq<bool>, first: nat, chain: seq<nat>, x: nat) {
    && Linked(signer, first, chain, x) && Walked(d, black, before, signer, chain) && AllBacked(d, signer)
    && x < |d.certs| && signer[x] == before[x]
    && |seen| == |signer| && forall c :: 0 <= c < |seen| ==> (seen[c] <==> c in chain)
  }

  lemma LinkedOn(signer: seq<Option<nat>>, first: nat, chain: seq<nat>, x: nat, p: nat)
    requires Linked(signer, first, chain, x) && NoDup(chain) && p < |signer|
    ensures Linked(signer[x := Some(p)], first, chain + [p], p)
  {
    var signer', chain' := signer[x := Some(p)], chain + [p];
    forall i | 0 <= i < |chain'| - 1 ensures signer'[chain'[i]] == Some(chain'[i + 1]) {
      if i < |chain| - 1 {
        assert chain[i] != x;
      }
    }
  }

  lemma WalkedOn(d: Doc, black: seq<bool>, before: seq<Option<nat>>, signer: seq<Option<nat>>, chain: seq<nat>, x: nat, p: nat)
    requires Walked(d, black, before, signer, chain) && |chain| > 0 && chain[|chain| - 1] == x && x < |signer|
    requires x < |black| && !black[x] && Backed(d, x, p) && p !in chain
    ensures Walked(d, black, before, signer[x := Some(p)], chain + [p])
  {
  }

  lemma WalkOn(d: Doc, black: seq<bool>, before: seq<Option<nat>>, signer: seq<Option<nat>>, seen: seq<bool>,
               first: nat, chain: seq<nat>, x: nat, p: nat)
    requires Walking(d, black, before, signer, seen, first, chain, x)
    requires x < |black| && !black[x] && Backed(d, x, p) && !seen[p]
    ensures Walking(d, black, before, signer[x := Some(p)], seen[p := true], first, chain + [p], p)
  {
    LinkedOn(signer, first, chain, x, p);
    WalkedOn(d, black, before, signer, chain, x, p);
  }

  /** How the walk ended at the last certificate, and what became of its own link. */
  ghost predicate ChainEnd(d: Doc, black: seq<bool>, before: seq<Option<nat>>, signer: seq<Option<nat>>,
                           chain: seq<nat>, x: nat, ret: int) {
    && x < |d.certs| == |black| == |before| == |signer|
    && Ended(d, chain, black[x], x, ret)
    && signer[x] == if !black[x] && d.certs[x].selfSigned && !d.certs[x].unsupportedSig then Some(x) else before[x]
  }

  /** Everything one walk promises about the signer links. */
  ghost predicate WalkDone(d: Doc, black: seq<bool>, before: seq<Option<nat>>, signer: seq<Option<nat>>,
                           first: nat, chain: seq<nat>, x: nat, ret: int) {
    && AllBacked(d, signer) && Linked(signer, first, chain, x)
    && Walked(d, black, before, signer, chain) && ChainEnd(d, black, before, signer, chain, x, ret)
  }

  lemma WalkSelf(d: Doc, black: seq<bool>, before: seq<Option<nat>>, signer: seq<Option<nat>>, seen: seq<bool>,
                 first: nat, chain: seq<nat>, x: nat)
    requires Walking(d, black, before, signer, seen, first, chain, x) && Backed(d, x, x)
    requires |black| == |d.certs| && !black[x] && d.certs[x].selfSigned
    ensures WalkDone(d, black, before, signer[x := Some(x)], first, chain, x, 0)
  {
  }

  // ----- signed infos -----

  /** The info has no certificate here, or its certificate was valid at the signing time and
      its key verified the signature. */
  ghost predicate InfoOk(d: Doc, signer: Option<nat>, k: nat)
    requires k < |d.infos|
  {
    signer.Some? ==>
      && signer.value < |d.certs|
      && d.verify(d.certs[signer.value].pub, d.infos[k].sig) >= 0
      && (d.infos[k].signingTime.Some? ==>
            d.certs[signer.value].validFrom <= d.infos[k].signingTime.value <= d.certs[signer.value].validTo)
  }

  // ----- trust -----

  /** The keyring holds a key under these ids, and that key verified `sig`. */
  ghost predicate Vouches(d: Doc, id: Option<KeyId>, skid: Option<KeyId>, sig: Sig) {
    d.find(id, skid).Found? && d.keyVerify(d.find(id, skid).key, sig) >= 0
  }

  /** A certificate at which a keyring key verified a signature: a trusted copy of it verified
      what it signed, a signed info or another certificate, or a trusted key verified the
      signature on it. */
  ghost predicate Anchor(d: Doc, signer: seq<Option<nat>>, infoSigner: seq<Option<nat>>, c: nat) {
    && c < |d.certs|
    && (|| (exists k :: 0 <= k < |infoSigner| && k < |d.infos| && infoSigner[k] == Some(c) &&
              Vouches(d, d.certs[c].id, d.certs[c].skid, d.infos[k].sig))
        || (exists e :: 0 <= e < |signer| && e < |d.certs| && signer[e] == Some(c) &&
              Vouches(d, d.certs[c].id, d.certs[c].skid, d.certs[e].sig))
        || Vouches(d, d.certs[c].sig.auth0, d.certs[c].sig.auth1, d.certs[c].sig))
  }

  ghost predicate Reaches(d: Doc, signer: seq<Option<nat>>, infoSigner: seq<Option<nat>>, c: nat) {
    exists chain, a :: Linked(signer, c, chain, a) && Anchor(d, signer, infoSigner, a)
  }

  ghost predicate AllReach(d: Doc, signer: seq<Option<nat>>, infoSigner: seq<Option<nat>>, verified: seq<bool>) {
    forall c :: 0 <= c < |verified| && verified[c] ==> Reaches(d, signer, infoSigner, c)
  }

  lemma ReachesAlong(d: Doc, signer: seq<Option<nat>>, infoSigner: seq<Option<nat>>, from: nat, chain: seq<nat>, to: nat, i: nat)
    requires Linked(signer, from, chain, to) && Reaches(d, signer, infoSigner, to) && i < |chain|
    ensures Reaches(d, signer, infoSigner, chain[i])
  {
    var rest, a :| Linked(signer, to, rest, a) && Anchor(d, signer, infoSigner, a);
    LinkedSuffix(signer, from, chain, to, i);
    LinkedJoin(signer, chain[i], chain[i..], to, rest, a);
  }

  lemma AnchorReaches(d: Doc, signer: seq<Option<nat>>, infoSigner: seq<Option<nat>>, c: nat)
    requires Anchor(d, signer, infoSigner, c) && |signer| == |d.certs|
    ensures Reaches(d, signer, infoSigner, c)
  {
    assert Linked(signer, c, [c], c);
  }

  /** A trusted key verified the signed info itself. */
  ghost predicate Direct(d: Doc, k: nat)
    requires k < |d.infos|
  {
    Vouches(d, d.infos[k].sig.auth0, None, d.infos[k].sig)
  }

  /** The signed info is accepted. */
  ghost predicate Trusted(d: Doc, signer: seq<Option<nat>>, infoSigner: seq<Option<nat>>, k: nat) {
    k < |d.infos| && k < |infoSigner| &&
    (Direct(d, k) || (infoSigner[k].Some? && Reaches(d, signer, infoSigner, infoSigner[k].value)))
  }

  /** What the walk along the signer links found. */
  datatype Outcome =
    | Matched(cert: Option<nat>, key: PublicKey, sig: Sig)
    | Cached(at: nat)
    | GaveUp(error: Errno)

  /** The trust walk has come to `x` over `chain`, the last of which is `last`. */
  ghost predicate Climbed(d: Doc, signer: seq<Option<nat>>, infoSigner: seq<Option<nat>>, k: nat,
                          chain: seq<nat>, last: Option<nat>, x: Option<nat>, sig: Sig) {
    && k < |d.infos| == |infoSigner| && |signer| == |d.certs|
    && (x.Some? ==> x.value < |signer|)
    && match last
       case None => x == infoSigner[k] && sig == d.infos[k].sig
       case Some(l) =>
         && infoSigner[k].Some? && l < |signer| && Linked(signer, infoSigner[k].value, chain, l)
         && signer[l] == x && sig == d.certs[l].sig
  }

  /** The outcome is what the walk is meant to deliver. */
  ghost predicate Delivered(d: Doc, signer: seq<Option<nat>>, infoSigner: seq<Option<nat>>, verified: seq<bool>, k: nat,
                            chain: seq<nat>, o: Outcome) {
    && k < |d.infos| == |infoSigner| && |verified| == |signer| == |d.certs|
    && match o
       case Matched(Some(c), key, sig) =>
         && infoSigner[k].Some? && Linked(signer, infoSigner[k].value, chain, c)
         && (d.keyVerify(key, sig) >= 0 ==> Anchor(d, signer, infoSigner, c))
       case Matched(None, key, sig) => d.keyVerify(key, sig) >= 0 ==> Direct(d, k)
       case Cached(c) => infoSigner[k].Some? && Linked(signer, infoSigner[k].value, chain, c) && verified[c]
       case GaveUp(_) => true
  }

  ghost function Upto(last: Option<nat>, chain: seq<nat>, x: nat): seq<nat> {
    if last.None? then [x] else chain + [x]
  }

  lemma ClimbTo(d: Doc, signer: seq<Option<nat>>, infoSigner: seq<Option<nat>>, k: nat,
                chain: seq<nat>, last: Option<nat>, x: nat, sig: Sig)
    requires Climbed(d, signer, infoSigner, k, chain, last, Some(x), sig)
    ensures infoSigner[k].Some? && Linked(signer, infoSigner[k].value, Upto(last, chain, x), x)
    ensures Vouches(d, d.certs[x].id, d.certs[x].skid, sig) ==> Anchor(d, signer, infoSigner, x)
  {
    if last.Some? {
      LinkedSnoc(signer, infoSigner[k].value, chain, last.value, x);
    }
  }

  lemma ClimbPast(d: Doc, signer: seq<Option<nat>>, infoSigner: seq<Option<nat>>, k: nat, chain: seq<nat>, c: nat)
    requires k < |d.infos| == |infoSigner| && infoSigner[k].Some? && AllBacked(d, signer)
    requires c < |signer| && Linked(signer, infoSigner[k].value, chain, c)
    ensures Climbed(d, signer, infoSigner, k, chain, Some(c), signer[c], d.certs[c].sig)
  {
  }

  // ----- how answers combine -----

  predicate Fatal(ret: int, blacklisted: bool) {
    !blacklisted && ret < 0 && ret != -ENOPKG
  }

  /** What pkcs7_verify makes of the answers for the single infos: a fatal one ends it;
      otherwise any verified info wins over a blacklisted one, and that over missing crypto. */
  ghost predicate Concluded(rets: seq<int>, blacklisted: seq<bool>, n: nat, ret: int) {
    && |rets| <= n == |blacklisted|
    && (forall k :: 0 <= k < |rets| - 1 ==> blacklisted[k] || rets[k] >= 0 || rets[k] == -ENOPKG)
    && if |rets| > 0 && !blacklisted[|rets| - 1] && rets[|rets| - 1] < 0 && rets[|rets| - 1] != -ENOPKG then ret == rets[|rets| - 1]
       else
         && |rets| == n
         && ret == if exists k :: 0 <= k < n && !blacklisted[k] && rets[k] == 0 then 0
                   else if exists k :: 0 <= k < n && blacklisted[k] then -EKEYREJECTED
                   else -ENOPKG
  }

  function Update(actual: int, ret: int, blacklisted: bool): int {
    if blacklisted then (if actual == -ENOPKG then -EKEYREJECTED else actual)
    else if ret == -ENOPKG then actual
    else 0
  }

  /** The answer so far, when none was fatal. */
  ghost predicate Tally(rets: seq<int>, blacklisted: seq<bool>, actual: int) {
    && |rets| <= |blacklisted| && (forall k :: 0 <= k < |rets| ==> rets[k] <= 0 && !Fatal(rets[k], blacklisted[k]))
    && actual == if exists k :: 0 <= k < |rets| && !blacklisted[k] && rets[k] == 0 then 0
                 else if exists k :: 0 <= k < |rets| && blacklisted[k] then -EKEYREJECTED
                 else -ENOPKG
  }

  lemma TallyFrame(rets: seq<int>, black: seq<bool>, black': seq<bool>, actual: int)
    requires Tally(rets, black, actual) && |black'| == |black| && forall k :: 0 <= k < |rets| ==> black'[k] == black[k]
    ensures Tally(rets, black', actual)
  {
  }

  lemma TallyMore(rets: seq<int>, black: seq<bool>, actual: int, r: int)
    requires |rets| < |black| && r <= 0 && !Fatal(r, black[|rets|]) && Tally(rets, black, actual)
    ensures Tally(rets + [r], black, Update(actual, r, black[|rets|]))
  {
    var more := rets + [r];
    assert forall k :: 0 <= k < |rets| ==> more[k] == rets[k];
    assert more[|rets|] == r;
  }

  lemma TallyEnds(rets: seq<int>, black: seq<bool>, actual: int, r: int)
    requires |rets| < |black| && Fatal(r, black[|rets|]) && Tally(rets, black, actual)
    ensures Concluded(rets + [r], black, |black|, r)
  {
    assert forall k :: 0 <= k < |rets| ==> (rets + [r])[k] == rets[k];
  }

  /** The answer for one more info, which changes no other mark. */
  lemma TallyStep(rets: seq<int>, black: seq<bool>, black': seq<bool>, actual: int, r: int)
    requires Tally(rets, black, actual) && |rets| < |black| && r <= 0 && |black'| == |black|
    requires black' == black[|rets| := black'[|rets|]]
    ensures var k := |rets|;
            if Fatal(r, black'[k]) then Concluded(rets + [r], black', |black|, r)
            else Tally(rets + [r], black', Update(actual, r, black'[k]))
  {
    TallyFrame(rets, black, black', actual);
    if Fatal(r, black'[|rets|]) {
      TallyEnds(rets, black', actual, r);
    } else {
      TallyMore(rets, black', actual, r);
    }
  }

  lemma TallyIsConclusion(rets: seq<int>, black: seq<bool>, actual: int)
    requires Tally(rets, black, actual) && |rets| == |black|
    ensures Concluded(rets, black, |black|, actual)
  {
  }

  lemma BlackStart(d: Doc, black: seq<bool>)
    requires |black| == |d.certs|
    ensures BlackGrown(d, black, black)
  {
    forall c | 0 <= c < |black| && black[c] ensures LeadsToBlack(d, black, c) {
      assert Path(d, [c]);
    }
  }

  predicate Soft(ret: int) {
    ret == 0 || ret == -ENOPKG || ret == -ENOKEY
  }

  /** How single answers combine: the first other error ends it and wins; otherwise any
      success wins over missing crypto, and that over a missing key. */
  ghost predicate Combined(rets: seq<int>, n: nat, ret: int) {
    if ret == 0 || ret == -ENOPKG || ret == -ENOKEY then
      && |rets| == n && (forall k :: 0 <= k < n ==> rets[k] == 0 || rets[k] == -ENOPKG || rets[k] == -ENOKEY)
      && ret == if 0 in rets then 0 else if -ENOPKG in rets then -ENOPKG else -ENOKEY
    else
      && 0 < |rets| <= n && ret == rets[|rets| - 1]
      && forall k :: 0 <= k < |rets| - 1 ==> rets[k] == 0 || rets[k] == -ENOPKG || rets[k] == -ENOKEY
  }

  function Merge(cached: int, r: int): int {
    if r == 0 then 0 else if r == -ENOPKG && cached == -ENOKEY then -ENOPKG else cached
  }

  lemma CombinedMore(rets: seq<int>, cached: int, r: int)
    requires Soft(cached) && Combined(rets, |rets|, cached)
    ensures Soft(r) ==> Combined(rets + [r], |rets| + 1, Merge(cached, r)) && Soft(Merge(cached, r))
    ensures forall n :: !Soft(r) && n > |rets| ==> Combined(rets + [r], n, r)
  {
    assert forall k :: 0 <= k < |rets| ==> (rets + [r])[k] == rets[k];
  }

  /** A complete argument for signed info `k`: a keyring key verified it; or its certificate's
      key did, a chain of checked signatures leads from there to a certificate, and a keyring
      key verified a signature there. */
  ghost predicate Endorsed(d: Doc, signer: seq<Option<nat>>, infoSigner: seq<Option<nat>>, k: nat) {
    k < |d.infos| == |infoSigner| && |signer| == |d.certs| &&
    (|| Direct(d, k)
     || (exists chain, a :: |chain| > 0 && infoSigner[k] == Some(chain[0]) && InfoOk(d, Some(chain[0]), k) &&
           Linked(signer, chain[0], chain, a) && Anchor(d, signer, infoSigner, a) &&
           forall i :: 0 <= i < |chain| - 1 ==> Backed(d, chain[i], chain[i + 1])))
  }

  lemma TrustedIsEndorsed(d: Doc, signer: seq<Option<nat>>, infoSigner: seq<Option<nat>>, k: nat)
    requires k < |d.infos| == |infoSigner| && AllBacked(d, signer)
    requires Trusted(d, signer, infoSigner, k) && InfoOk(d, infoSigner[k], k)
    ensures Endorsed(d, signer, infoSigner, k)
  {
    if !Direct(d, k) {
      var chain, a :| Linked(signer, infoSigner[k].value, chain, a) && Anchor(d, signer, infoSigner, a);
      assert chain[0] == infoSigner[k].value;
    }
  }

  // ----- blacklisting -----

  /** The walk can go from `c` to its issuer `p`. */
  ghost predicate Step(d: Doc, c: nat, p: nat) {
    c < |d.certs| && p < |d.certs| && !d.certs[c].selfSigned && IsIssuer(d, c, Some(p)) && !SkidClash(d, c, p) && Checks(d, c, p)
  }

  lemma StepUnique(d: Doc, c: nat, p: nat, q: nat)
    requires Step(d, c, p) && Step(d, c, q)
    ensures p == q
  {
    var sig := d.certs[c].sig;
    var bySkid, auth := sig.auth0.None?, if sig.auth0.Some? then sig.auth0 else sig.auth1;
    assert Matches(d, bySkid, auth, p) && Matches(d, bySkid, auth, q);
  }

  ghost predicate Path(d: Doc, path: seq<nat>) {
    && |path| > 0 && (forall i :: 0 <= i < |path| ==> path[i] < |d.certs|)
    && forall i :: 0 <= i < |path| - 1 ==> Step(d, path[i], path[i + 1])
  }

  /** Checked issuers lead from `c` to a blacklisted certificate. */
  ghost predicate LeadsToBlack(d: Doc, black: seq<bool>, c: nat) {
    |black| == |d.certs| && exists path :: Path(d, path) && path[0] == c && black[path[|path| - 1]]
  }

  /** A way that does not leave the chain of an ended walk. */
  lemma {:induction false} PathStays(d: Doc, chain: seq<nat>, x: nat, path: seq<nat>, m: nat)
    requires |chain| > 0 && chain[|chain| - 1] == x && Path(d, path) && path[0] == chain[0] && m < |path|
    requires forall i :: 0 <= i < |chain| - 1 ==> Step(d, chain[i], chain[i + 1])
    requires forall p :: Step(d, x, p) ==> p in chain
    ensures path[m] in chain
  {
    if m > 0 {
      PathStays(d, chain, x, path, m - 1);
      var j :| 0 <= j < |chain| && chain[j] == path[m - 1];
      assert Step(d, path[m - 1], path[m]);
      if j < |chain| - 1 {
        StepUnique(d, chain[j], chain[j + 1], path[m]);
      }
    }
  }

  lemma WalkedSteps(d: Doc, black: seq<bool>, before: seq<Option<nat>>, signer: seq<Option<nat>>, chain: seq<nat>, i: nat)
    requires Walked(d, black, before, signer, chain) && i < |chain| - 1
    ensures Step(d, chain[i], chain[i + 1])
  {
    assert Backed(d, chain[i], chain[i + 1]);
  }

  /** An ended walk can only have gone on into its own chain. */
  lemma EndedStays(d: Doc, chain: seq<nat>, x: nat, ret: int, p: nat)
    requires x < |d.certs| && Ended(d, chain, false, x, ret) && Step(d, x, p)
    ensures p in chain
  {
    if !IsIssuer(d, x, None) {
      var q :| 0 <= q < |d.certs| && IsIssuer(d, x, Some(q)) &&
            if SkidClash(d, x, q) then ret == -EKEYREJECTED
            else if q in chain then ret == 0
            else ret == d.verify(d.certs[q].pub, d.certs[x].sig) && ret < 0;
      IssuerUnique(d, x, p, q);
    }
  }

  lemma IssuerUnique(d: Doc, c: nat, p: nat, q: nat)
    requires c < |d.certs| && IsIssuer(d, c, Some(p)) && IsIssuer(d, c, Some(q))
    ensures p == q
  {
    var sig := d.certs[c].sig;
    var bySkid, auth := sig.auth0.None?, if sig.auth0.Some? then sig.auth0 else sig.auth1;
    assert Matches(d, bySkid, auth, p) && Matches(d, bySkid, auth, q);
  }

  /** The walk stops at a blacklisted certificate if and only if checked issuers lead to one. */
  lemma WalkMeetsBlack(d: Doc, black: seq<bool>, before: seq<Option<nat>>, signer: seq<Option<nat>>,
                       first: nat, chain: seq<nat>, x: nat, ret: int)
    requires WalkDone(d, black, before, signer, first, chain, x, ret)
    ensures black[x] <==> LeadsToBlack(d, black, first)
  {
    forall i | 0 <= i < |chain| - 1 ensures Step(d, chain[i], chain[i + 1]) {
      WalkedSteps(d, black, before, signer, chain, i);
    }
    if black[x] {
      assert Path(d, chain);
    } else if LeadsToBlack(d, black, first) {
      var path :| Path(d, path) && path[0] == first && black[path[|path| - 1]];
      forall p | Step(d, x, p) ensures p in chain {
        EndedStays(d, chain, x, ret, p);
      }
      PathStays(d, chain, x, path, |path| - 1);
      assert false;
    }
  }

  /** `ret` is the answer where checked issuers lead to from `first`. There is only one way to go. */
  ghost predicate WalkEnds(d: Doc, first: nat, ret: int) {
    exists path: seq<nat> :: Path(d, path) && NoDup(path) && path[0] == first && Ended(d, path, false, path[|path| - 1], ret)
  }

  lemma WalkAnswers(d: Doc, black: seq<bool>, before: seq<Option<nat>>, signer: seq<Option<nat>>,
                    first: nat, chain: seq<nat>, x: nat, ret: int)
    requires WalkDone(d, black, before, signer, first, chain, x, ret) && !black[x]
    ensures WalkEnds(d, first, ret)
  {
    forall i | 0 <= i < |chain| - 1 ensures Step(d, chain[i], chain[i + 1]) {
      WalkedSteps(d, black, before, signer, chain, i);
    }
    assert Path(d, chain);
  }

  /** The marks made so far: all original ones, and only on certificates that lead to one. */
  ghost predicate BlackGrown(d: Doc, black0: seq<bool>, black: seq<bool>) {
    && |black0| == |black| == |d.certs|
    && (forall c :: 0 <= c < |black0| && black0[c] ==> black[c])
    && (forall c :: 0 <= c < |black| && black[c] ==> LeadsToBlack(d, black0, c))
  }

  lemma PathJoin(d: Doc, a: seq<nat>, b: seq<nat>)
    requires Path(d, a) && Path(d, b) && a[|a| - 1] == b[0]
    ensures Path(d, a + b[1..]) && (a + b[1..])[|a + b[1..]| - 1] == b[|b| - 1]
  {
    var j := a + b[1..];
    forall i | 0 <= i < |j| - 1 ensures Step(d, j[i], j[i + 1]) {
      if i >= |a| - 1 {
        assert j[i + 1] == b[i + 2 - |a|] && j[i] == b[i + 1 - |a|];
      }
    }
  }

  /** Leading to a mark is leading to an original one. */
  lemma LeadsSame(d: Doc, black0: seq<bool>, black: seq<bool>, c: nat)
    requires BlackGrown(d, black0, black)
    ensures LeadsToBlack(d, black, c) <==> LeadsToBlack(d, black0, c)
  {
    if LeadsToBlack(d, black, c) {
      var a :| Path(d, a) && a[0] == c && black[a[|a| - 1]];
      assert LeadsToBlack(d, black0, a[|a| - 1]);
      var b :| Path(d, b) && b[0] == a[|a| - 1] && black0[b[|b| - 1]];
      PathJoin(d, a, b);
      assert (a + b[1..])[0] == c;
    }
    if LeadsToBlack(d, black0, c) {
      var a :| Path(d, a) && a[0] == c && black0[a[|a| - 1]];
      assert black[a[|a| - 1]];
    }
  }

  /** Marking the chain of a walk that met a mark keeps that. */
  lemma MarksGrow(d: Doc, black0: seq<bool>, black: seq<bool>, black': seq<bool>, before: seq<Option<nat>>,
                  signer: seq<Option<nat>>, first: nat, chain: seq<nat>, x: nat, ret: int)
    requires BlackGrown(d, black0, black) && WalkDone(d, black, before, signer, first, chain, x, ret)
    requires |black'| == |black| && forall c :: 0 <= c < |black| ==> black'[c] == (black[c] || (black[x] && c in chain))
    ensures BlackGrown(d, black0, black')
  {
    forall c | 0 <= c < |black'| && black'[c] ensures LeadsToBlack(d, black0, c) {
      if !black[c] {
        var i :| 0 <= i < |chain| && chain[i] == c;
        OnChainLeads(d, black, before, signer, first, chain, x, ret, i);
        LeadsSame(d, black0, black, c);
      }
    }
  }

  lemma OnChainLeads(d: Doc, black: seq<bool>, before: seq<Option<nat>>, signer: seq<Option<nat>>,
                     first: nat, chain: seq<nat>, x: nat, ret: int, i: nat)
    requires WalkDone(d, black, before, signer, first, chain, x, ret) && black[x] && i < |chain|
    ensures LeadsToBlack(d, black, chain[i])
  {
    ChainSuffix(d, black, before, signer, chain, i);
    assert chain[i..][|chain| - i - 1] == x;
  }

  lemma ChainSuffix(d: Doc, black: seq<bool>, before: seq<Option<nat>>, signer: seq<Option<nat>>, chain: seq<nat>, i: nat)
    requires Walked(d, black, before, signer, chain) && i < |chain| && forall j :: 0 <= j < |chain| ==> chain[j] < |d.certs|
    ensures Path(d, chain[i..]) && chain[i..][0] == chain[i]
  {
    forall j | 0 <= j < |chain[i..]| - 1 ensures Step(d, chain[i..][j], chain[i..][j + 1]) {
      WalkedSteps(d, black, before, signer, chain, i + j);
    }
  }

  /** The info has a certificate, and everything before the walk along its chain succeeded. */
  ghost predicate Examined(d: Doc, signer: Option<nat>, k: nat)
    requires k < |d.infos|
  {
    signer.Some? && d.digest(k) >= 0 && InfoOk(d, signer, k)
  }

  /** pkcs7_find_key: the first certificate with the issuer and serial that the info names; if
      there is none the signer stays as it was. */
  ghost predicate Assigned(d: Doc, k: nat, before: Option<nat>, after: Option<nat>)
    requires k < |d.infos|
  {
    var auth := d.infos[k].sig.auth0;
    if after.Some? && IsFirst(d, false, auth, after) then true
    else IsFirst(d, false, auth, None) && after == before
  }

  /** What is known of an info that was looked at: its signer, its mark and the answer. */
  ghost predicate Told(d: Doc, black0: seq<bool>, k: nat, signer: Option<nat>, black: bool, ret: int) {
    && Answered(d, black0, signer, k, ret)
    && (d.digest(k) >= 0 ==> Assigned(d, k, None, signer))
    && (black <==> Examined(d, signer, k) && LeadsToBlack(d, black0, signer.value))
  }

  /** The same of an info that pkcs7_verify has dealt with. */
  ghost predicate Handled(d: Doc, black0: seq<bool>, k: nat, signer: Option<nat>, black: bool, unsupported: bool, ret: int) {
    && Told(d, black0, k, signer, black, ret)
    && (unsupported <==> !black && ret == -ENOPKG)
    && (unsupported || (d.digest(k) >= 0 && InfoOk(d, signer, k)))
  }

  predicate InTime(info: Info, c: Cert) {
    info.signingTime.Some? ==> c.validFrom <= info.signingTime.value <= c.validTo
  }

  /** What pkcs7_verify_one answers: it is decided before that walk, or by meeting a blacklisted
      certificate on it, or by where it ends. */
  ghost predicate Answered(d: Doc, black: seq<bool>, signer: Option<nat>, k: nat, ret: int) {
    && k < |d.infos| && (signer.Some? ==> signer.value < |d.certs|)
    && if d.digest(k) < 0 then ret == d.digest(k)
       else if signer.None? then ret == 0
       else if !InTime(d.infos[k], d.certs[signer.value]) then ret == -EKEYREJECTED
       else if d.verify(d.certs[signer.value].pub, d.infos[k].sig) < 0
       then ret == d.verify(d.certs[signer.value].pub, d.infos[k].sig)
       else if LeadsToBlack(d, black, signer.value) then ret == 0
       else WalkEnds(d, signer.value, ret)
  }

  // ----- the trust walk as a function -----

  /** Where the climb along the signer links ends: something settles the matter, or the top is
      reached, with its last certificate. */
  datatype Ascent = Settled(outcome: Outcome) | Top(last: Option<nat>)

  ghost predicate Links(d: Doc, signer: seq<Option<nat>>) {
    |signer| == |d.certs| && forall c :: 0 <= c < |signer| && signer[c].Some? ==> signer[c].value < |signer|
  }

  function Unseen(seen: seq<bool>): set<nat> {
    set c: nat | c < |seen| && !seen[c]
  }

  /** One certificate on the way (pkcs7_trust.c:39-71): None to go on. */
  function Look(d: Doc, signer: seq<Option<nat>>, seen: bool, verified: bool, c: nat, sig: Sig): Option<Outcome>
    requires c < |d.certs| == |signer|
  {
    if seen then Some(if verified then Cached(c) else GaveUp(-ENOKEY))
    else match d.find(d.certs[c].id, d.certs[c].skid)
      case Found(key) => Some(Matched(Some(c), key, sig))
      case Failed(e) =>
        if e == -ENOMEM then Some(GaveUp(e)) else if signer[c] == Some(c) then Some(GaveUp(-ENOKEY)) else None
  }

  ghost function Climb(d: Doc, signer: seq<Option<nat>>, left: set<nat>, verified: seq<bool>, x: Option<nat>,
                       last: Option<nat>, sig: Sig): Ascent
    requires Links(d, signer) && |verified| == |d.certs| && (x.Some? ==> x.value < |d.certs|)
    decreases left
  {
    if x.None? then Top(last)
    else
      var c := x.value;
      var o := Look(d, signer, c !in left, verified[c], c, sig);
      if o.Some? then Settled(o.value)
      else Climb(d, signer, left - {c}, verified, signer[c], x, d.certs[c].sig)
  }

  /** Above the top (pkcs7_trust.c:78-112): the signer of the last certificate, then of the info. */
  function Above(d: Doc, k: nat, last: Option<nat>): Outcome
    requires k < |d.infos| && (last.Some? ==> last.value < |d.certs|)
  {
    if TopKnown(d, last) then
      match TopLookup(d, last)
      case Found(key) => Matched(last, key, d.certs[last.value].sig)
      case Failed(e) => GaveUp(e)
    else
      match d.find(d.infos[k].sig.auth0, None)
      case Found(key) => Matched(None, key, d.infos[k].sig)
      case Failed(e) => GaveUp(e)
  }

  function TopLookup(d: Doc, last: Option<nat>): Lookup
    requires last.Some? && last.value < |d.certs|
  {
    d.find(d.certs[last.value].sig.auth0, d.certs[last.value].sig.auth1)
  }

  /** The last certificate names a signer, and the keyring does not answer that it has none. */
  predicate TopKnown(d: Doc, last: Option<nat>)
    requires last.Some? ==> last.value < |d.certs|
  {
    && last.Some? && (d.certs[last.value].sig.auth0.Some? || d.certs[last.value].sig.auth1.Some?)
    && TopLookup(d, last) != Failed(-ENOKEY)
  }

  function Verdict(d: Doc, o: Outcome): int {
    match o
    case GaveUp(e) => e
    case Cached(_) => 0
    case Matched(_, key, sig) =>
      var r := d.keyVerify(key, sig);
      if r >= 0 then 0 else if r == -ENOMEM then r else -EKEYREJECTED
  }

  lemma {:induction false} ClimbTop(d: Doc, signer: seq<Option<nat>>, left: set<nat>, verified: seq<bool>, x: Option<nat>,
                                    last: Option<nat>, sig: Sig)
    requires Links(d, signer) && |verified| == |d.certs| && (x.Some? ==> x.value < |d.certs|)
    requires last.Some? ==> last.value < |d.certs|
    ensures var a := Climb(d, signer, left, verified, x, last, sig);
            a.Top? && a.last.Some? ==> a.last.value < |d.certs|
    decreases left
  {
    if x.Some? && Look(d, signer, x.value !in left, verified[x.value], x.value, sig).None? {
      ClimbTop(d, signer, left - {x.value}, verified, signer[x.value], x, d.certs[x.value].sig);
    }
  }

  ghost predicate Started(d: Doc, signer: seq<Option<nat>>, infoSigner: seq<Option<nat>>, seen: seq<bool>,
                          verified: seq<bool>, k: nat) {
    && Links(d, signer) && |seen| == |verified| == |d.certs| && k < |d.infos| == |infoSigner|
    && (infoSigner[k].Some? ==> infoSigner[k].value < |d.certs|)
  }

  ghost function ClimbFrom(d: Doc, signer: seq<Option<nat>>, infoSigner: seq<Option<nat>>, seen: seq<bool>,
                           verified: seq<bool>, k: nat): Ascent
    requires Started(d, signer, infoSigner, seen, verified, k)
  {
    Climb(d, signer, Unseen(seen), verified, infoSigner[k], None, d.infos[k].sig)
  }

  /** What pkcs7_validate_trust_one bases its answer on. */
  ghost function Grounds(d: Doc, signer: seq<Option<nat>>, infoSigner: seq<Option<nat>>, seen: seq<bool>,
                         verified: seq<bool>, k: nat): Outcome
    requires Started(d, signer, infoSigner, seen, verified, k)
  {
    ClimbTop(d, signer, Unseen(seen), verified, infoSigner[k], None, d.infos[k].sig);
    match ClimbFrom(d, signer, infoSigner, seen, verified, k)
    case Settled(o) => o
    case Top(last) => Above(d, k, last)
  }

  /** What pkcs7_validate_trust_one answers, acceptance and every kind of rejection. */
  ghost function TrustAnswer(d: Doc, signer: seq<Option<nat>>, infoSigner: seq<Option<nat>>, unsupported: bool,
                             seen: seq<bool>, verified: seq<bool>, k: nat): int
    requires Started(d, signer, infoSigner, seen, verified, k)
  {
    if unsupported then -ENOPKG else Verdict(d, Grounds(d, signer, infoSigner, seen, verified, k))
  }

  // ----- the marks left behind -----

  /** The certificates that are still unseen once the climb is over. */
  ghost function ClimbLeaves(d: Doc, signer: seq<Option<nat>>, left: set<nat>, verified: seq<bool>, x: Option<nat>, sig: Sig): set<nat>
    requires Links(d, signer) && |verified| == |d.certs| && (x.Some? ==> x.value < |d.certs|)
    decreases left
  {
    if x.None? then left
    else
      var c := x.value;
      if Look(d, signer, c !in left, verified[c], c, sig).Some? then left - {c}
      else ClimbLeaves(d, signer, left - {c}, verified, signer[c], d.certs[c].sig)
  }

  /** The certificate that an outcome is about. */
  function CertOf(o: Outcome): Option<nat> {
    match o
    case Matched(cert, _, _) => cert
    case Cached(at) => Some(at)
    case GaveUp(_) => None
  }

  /** Exactly the certificates on the way from `from` to `x` have been marked. */
  ghost predicate MarkedUpTo(signer: seq<Option<nat>>, before: seq<bool>, after: seq<bool>, from: nat, x: nat) {
    |after| == |before| &&
    exists chain :: Linked(signer, from, chain, x) && x !in chain[..|chain| - 1] &&
                    forall c :: 0 <= c < |before| ==> after[c] == (before[c] || c in chain)
  }

  /** The marks after an info was dealt with. */
  ghost predicate Leaves(d: Doc, signer: seq<Option<nat>>, infoSigner: seq<Option<nat>>, unsupported: bool, k: nat,
                         seen: seq<bool>, verified: seq<bool>, seen': seq<bool>, verified': seq<bool>) {
    && Started(d, signer, infoSigner, seen, verified, k) && |seen'| == |seen|
    && if unsupported then seen' == seen && verified' == verified
       else
         var o := Grounds(d, signer, infoSigner, seen, verified, k);
         && Unseen(seen') == ClimbLeaves(d, signer, Unseen(seen), verified, infoSigner[k], d.infos[k].sig)
         && if Verdict(d, o) == 0 && CertOf(o).Some?
            then infoSigner[k].Some? && MarkedUpTo(signer, verified, verified', infoSigner[k].value, CertOf(o).value)
            else verified' == verified
  }

  // ----- infos that a keyring key verifies directly -----

  /** The climb stands in the way of nothing: it ends at a certificate that is trusted already or
      whose key verifies, or at a top whose signer is unknown or has a key that verifies. */
  ghost predicate Clears(d: Doc, a: Ascent)
    requires a.Top? && a.last.Some? ==> a.last.value < |d.certs|
  {
    match a
    case Settled(GaveUp(_)) => false
    case Settled(Cached(_)) => true
    case Settled(Matched(_, key, sig)) => d.keyVerify(key, sig) >= 0
    case Top(last) =>
      TopKnown(d, last) ==> TopLookup(d, last).Found? && d.keyVerify(TopLookup(d, last).key, d.certs[last.value].sig) >= 0
  }

  /** An info that a keyring key verifies directly is accepted exactly when the climb is clear. */
  lemma DirectAccepted(d: Doc, signer: seq<Option<nat>>, infoSigner: seq<Option<nat>>, seen: seq<bool>,
                       verified: seq<bool>, k: nat)
    requires Started(d, signer, infoSigner, seen, verified, k) && Direct(d, k)
    ensures var a := ClimbFrom(d, signer, infoSigner, seen, verified, k);
            && (a.Top? && a.last.Some? ==> a.last.value < |d.certs|)
            && (TrustAnswer(d, signer, infoSigner, false, seen, verified, k) == 0 <==> Clears(d, a))
  {
    ClimbTop(d, signer, Unseen(seen), verified, infoSigner[k], None, d.infos[k].sig);
  }

  /** In particular not when its certificate was looked at before without becoming trusted. */
  lemma CachedSkipsDirect(d: Doc, signer: seq<Option<nat>>, infoSigner: seq<Option<nat>>, seen: seq<bool>,
                          verified: seq<bool>, k: nat, c: nat)
    requires Started(d, signer, infoSigner, seen, verified, k) && Direct(d, k)
    requires infoSigner[k] == Some(c) && seen[c] && !verified[c]
    ensures TrustAnswer(d, signer, infoSigner, false, seen, verified, k) == -ENOKEY
  {
    assert c !in Unseen(seen);
  }

  /** An answer given in the state of `seen` and `verified` at its turn. */
  ghost predicate Reply(d: Doc, signer: seq<Option<nat>>, infoSigner: seq<Option<nat>>, unsupported: bool,
                        seen: seq<bool>, verified: seq<bool>, k: nat, ret: int) {
    && Started(d, signer, infoSigner, seen, verified, k)
    && ret == TrustAnswer(d, signer, infoSigner, unsupported, seen, verified, k)
    && (ret == 0 ==> !unsupported && Trusted(d, signer, infoSigner, k))
  }

  /** The answers for the first infos; `seens` and `verifieds` are the marks before each of them
      and after the last, each info finding those that the one before it left. */
  ghost predicate Replies(d: Doc, signer: seq<Option<nat>>, infoSigner: seq<Option<nat>>, unsupported: seq<bool>,
                          seens: seq<seq<bool>>, verifieds: seq<seq<bool>>, rets: seq<int>) {
    && |rets| + 1 == |seens| == |verifieds| && |rets| <= |unsupported|
    && (forall k :: 0 <= k < |rets| ==> Reply(d, signer, infoSigner, unsupported[k], seens[k], verifieds[k], k, rets[k]))
    && (forall k :: 0 <= k < |rets| ==>
          Leaves(d, signer, infoSigner, unsupported[k], k, seens[k], verifieds[k], seens[k + 1], verifieds[k + 1]))
  }

  lemma RepliesMore(d: Doc, signer: seq<Option<nat>>, infoSigner: seq<Option<nat>>, unsupported: seq<bool>,
                    seens: seq<seq<bool>>, verifieds: seq<seq<bool>>, rets: seq<int>,
                    seen: seq<bool>, verified: seq<bool>, ret: int)
    requires Replies(d, signer, infoSigner, unsupported, seens, verifieds, rets) && |rets| < |unsupported|
    requires var k := |rets|;
             && Reply(d, signer, infoSigner, unsupported[k], seens[k], verifieds[k], k, ret)
             && Leaves(d, signer, infoSigner, unsupported[k], k, seens[k], verifieds[k], seen, verified)
    ensures Replies(d, signer, infoSigner, unsupported, seens + [seen], verifieds + [verified], rets + [ret])
  {
    var seens', verifieds', rets' := seens + [seen], verifieds + [verified], rets + [ret];
    forall k | 0 <= k < |rets'|
      ensures Reply(d, signer, infoSigner, unsupported[k], seens'[k], verifieds'[k], k, rets'[k])
      ensures Leaves(d, signer, infoSigner, unsupported[k], k, seens'[k], verifieds'[k], seens'[k + 1], verifieds'[k + 1])
    {
      if k < |rets| {
        assert Reply(d, signer, infoSigner, unsupported[k], seens[k], verifieds[k], k, rets[k]);
        assert Leaves(d, signer, infoSigner, unsupported[k], k, seens[k], verifieds[k], seens[k + 1], verifieds[k + 1]);
      }
    }
  }

  /** What is known of all infos that were looked at. */
  ghost predicate AllTold(d: Doc, black0: seq<bool>, infoSigner: seq<Option<nat>>, infoBlack: seq<bool>, rets: seq<int>) {
    && |rets| <= |infoSigner| == |infoBlack|
    && forall j :: 0 <= j < |rets| ==> Told(d, black0, j, infoSigner[j], infoBlack[j], rets[j])
  }
}
