/** Which certificate a domain serves: the database and the shared directory merged per domain, what
    mirroring issued certificates into that directory does to later merges, and wildcard lookup.

    A certificate is its source, its expiry, and an opaque value that stands for the key pair. */
module Certificates {
  import opened Registry

  datatype Source = Manual | Acme | SelfSigned | File | Unrecognised(labelled: string)

  datatype Info = Info(source: Source, notAfter: int)

  /** A pair found on disk; `own` says its issuer names this gateway. */
  datatype FileCert = FileCert(own: bool, notAfter: int, pair: nat)

  function Rank(s: Source): nat {
    match s
    case Manual => 3
    case Acme | File => 2
    case SelfSigned | Unrecognised(_) => 1
  }

  function Classify(f: FileCert): Source {
    if f.own then SelfSigned else File
  }

  function Candidate(f: FileCert): Info {
    Info(Classify(f), f.notAfter)
  }

  predicate BetterCert(incumbent: Info, candidate: Info) {
    var ri, rc := Rank(incumbent.source), Rank(candidate.source);
    if rc != ri then rc > ri
    else if candidate.notAfter != incumbent.notAfter then candidate.notAfter > incumbent.notAfter
    else !candidate.source.File?
  }

  /** Rank first, then expiry. */
  predicate Above(a: Info, b: Info) {
    Rank(a.source) > Rank(b.source) || (Rank(a.source) == Rank(b.source) && a.notAfter > b.notAfter)
  }

  predicate Tie(a: Info, b: Info) {
    Rank(a.source) == Rank(b.source) && a.notAfter == b.notAfter
  }

  /** What is served for a domain: its description and its key pair. */
  datatype Served = Served(info: Info, pair: Option<nat>)

  /** The winner between what the database holds and what the directory holds for one domain. */
  function Merged(db: Option<Served>, file: Option<FileCert>): Option<Served> {
    match file
    case None => db
    case Some(f) =>
      if db.Some? && !BetterCert(db.value.info, Candidate(f)) then db else Some(Served(Candidate(f), Some(f.pair)))
  }

  function DbOf(info: map<string, Info>, certs: map<string, nat>, domain: string): Option<Served> {
    if domain in info then Some(Served(info[domain], if domain in certs then Some(certs[domain]) else None)) else None
  }

  function FileOf(files: map<string, FileCert>, domain: string): Option<FileCert> {
    if domain in files then Some(files[domain]) else None
  }

  /** Merges the two maps.  The certificates served and their descriptions never come apart: each
      domain has both from the database or both from the directory. */
  method MergeCerts(db: map<string, Info>, dbCerts: map<string, nat>, files: map<string, FileCert>)
    returns (info: map<string, Info>, certs: map<string, nat>)
    requires dbCerts.Keys == db.Keys
    ensures certs.Keys == info.Keys == db.Keys + files.Keys
    ensures forall d :: d in info ==> Merged(DbOf(db, dbCerts, d), FileOf(files, d)) == Some(Served(info[d], Some(certs[d])))
  {
    info, certs := db, dbCerts;
    var left := files.Keys;
    while left != {}
      invariant left <= files.Keys && certs.Keys == info.Keys == db.Keys + (files.Keys - left)
      invariant forall d :: d in info ==>
                  Some(Served(info[d], Some(certs[d]))) ==
                  if d in left then DbOf(db, dbCerts, d) else Merged(DbOf(db, dbCerts, d), FileOf(files, d))
      decreases left
    {
      var d :| d in left;
      var f := files[d];
      var candidate := Info(Classify(f), f.notAfter);
      left := left - {d};
      if d in info && !BetterCert(info[d], candidate) {
        continue;
      }
      info := info[d := candidate];
      certs := certs[d := f.pair];
    }
  }

  /** The merge keeps the greater under (rank, expiry).  On a tie the database wins against what is
      classified `file`, and only then: the directory wins a tie with a self-signed pair. */
  lemma MergeIsMaximum(db: Served, f: FileCert)
    ensures var m := Merged(Some(db), Some(f)).value;
            && !Above(db.info, m.info) && !Above(Candidate(f), m.info)
            && (m == db || m == Served(Candidate(f), Some(f.pair)))
            && (Tie(db.info, Candidate(f)) ==> m == if f.own then Served(Candidate(f), Some(f.pair)) else db)
  {
  }

  /** The merge never lowers the rank of what the database holds, and never displaces a manual
      certificate. */
  lemma MergeNeverLowers(db: Option<Served>, file: Option<FileCert>)
    requires db.Some?
    ensures var m := Merged(db, file);
            && m.Some? && Rank(m.value.info.source) >= Rank(db.value.info.source)
            && (db.value.info.source.Manual? ==> m == db)
  {
  }

  // ----- mirroring issued certificates into the directory

  /** Writing the pair: both files renamed into place, neither, or only the certificate, which leaves
      a pair that does not match and so is not there for the next scan. */
  datatype Mirror = Written | Untouched | Torn

  /** One certificate issued: its expiry, and how mirroring it went. */
  datatype Issued = Issued(notAfter: int, mirror: Mirror)

  /** What a domain has in the database and in the directory, when only this gateway writes there. */
  datatype Stored = Stored(db: Option<Served>, dir: Option<FileCert>)

  function Store(s: Stored, e: Issued, pair: nat): Stored {
    Stored(Some(Served(Info(Acme, e.notAfter), Some(pair))),
           match e.mirror
           case Written => Some(FileCert(false, e.notAfter, pair))
           case Untouched => s.dir
           case Torn => None)
  }

  /** The state after the first n certificates issued, from an empty directory. */
  function StoredAfter(es: seq<Issued>, n: nat): Stored
    requires n <= |es|
  {
    if n == 0 then Stored(None, None) else Store(StoredAfter(es, n - 1), es[n - 1], n - 1)
  }

  function Reloaded(s: Stored): Option<Served> {
    Merged(s.db, s.dir)
  }

  /** A reload turns an issued certificate's source into `file` exactly when the directory still holds
      a pair from a CA that expires later. */
  lemma FlipIff(s: Stored)
    requires s.db.Some? && s.db.value.info.source.Acme?
    ensures Reloaded(s).Some?
    ensures Reloaded(s).value.info.source.File? <==>
              s.dir.Some? && !s.dir.value.own && s.dir.value.notAfter > s.db.value.info.notAfter
    ensures Reloaded(s).value.info.source.File? || Reloaded(s) == s.db
  {
  }

  ghost predicate NeverFlips(es: seq<Issued>) {
    forall n {:trigger StoredAfter(es, n)} :: 0 < n <= |es| ==> Reloaded(StoredAfter(es, n)).value.info.source.Acme?
  }

  lemma {:induction false} DirIsOneIssued(es: seq<Issued>, n: nat)
    requires n <= |es|
    ensures n > 0 ==> StoredAfter(es, n).db == Some(Served(Info(Acme, es[n - 1].notAfter), Some(n - 1)))
    ensures var dir := StoredAfter(es, n).dir;
            dir.Some? ==> !dir.value.own && dir.value.pair < n && dir.value.notAfter == es[dir.value.pair].notAfter
  {
    if n > 0 {
      DirIsOneIssued(es, n - 1);
    }
  }

  lemma {:induction false} DirLeftAlone(es: seq<Issued>, i: nat, n: nat)
    requires i < n <= |es| && es[i].mirror.Written? && forall k :: i < k < n ==> es[k].mirror.Untouched?
    ensures StoredAfter(es, n).dir == Some(FileCert(false, es[i].notAfter, i))
  {
    if i < n - 1 {
      DirLeftAlone(es, i, n - 1);
    }
  }

  ghost predicate NeverEarlier(expiries: seq<int>) {
    forall i, j :: 0 <= i < j < |expiries| ==> expiries[i] <= expiries[j]
  }

  ghost predicate Expiring(es: seq<Issued>, expiries: seq<int>) {
    |es| == |expiries| && forall i :: 0 <= i < |es| ==> es[i].notAfter == expiries[i]
  }

  /** However each mirroring goes, no reload ever takes the domain from `acme` to `file`, exactly when
      no certificate issued expires before one issued earlier. */
  lemma MirrorNeverFlipsIff(expiries: seq<int>)
    ensures (forall es :: Expiring(es, expiries) ==> NeverFlips(es)) <==> NeverEarlier(expiries)
  {
    if NeverEarlier(expiries) {
      forall es | Expiring(es, expiries)
        ensures NeverFlips(es)
      {
        forall n {:trigger StoredAfter(es, n)} | 0 < n <= |es|
          ensures Reloaded(StoredAfter(es, n)).value.info.source.Acme?
        {
          DirIsOneIssued(es, n);
        }
      }
    } else {
      var i, j :| 0 <= i < j < |expiries| && expiries[i] > expiries[j];
      var es := seq(|expiries|, k requires 0 <= k < |expiries| => Issued(expiries[k], if k == i then Written else Untouched));
      DirLeftAlone(es, i, j + 1);
      DirIsOneIssued(es, j + 1);
      assert Expiring(es, expiries) && !NeverFlips(es);
    }
  }

  // ----- what the reconcile loop then does

  /** Inside its renewal window, or past its end. */
  predicate NeedsRenewal(i: Info, now: int, renewBefore: int, selfSignedRenewBefore: int) {
    now > i.notAfter || now + (if i.source.SelfSigned? then selfSignedRenewBefore else renewBefore) > i.notAfter
  }

  /** Whether a reconcile pass asks the CA for a certificate. */
  predicate AsksForIssuance(served: Option<Served>, now: int, possible: bool, renewBefore: int, selfSignedRenewBefore: int) {
    match served
    case None => true
    case Some(c) =>
      match c.info.source
      case Acme => NeedsRenewal(c.info, now, renewBefore, selfSignedRenewBefore)
      case SelfSigned => NeedsRenewal(c.info, now, renewBefore, selfSignedRenewBefore) && possible
      case _ => false
  }

  /** One pass at a time, and what the CA would issue then. */
  datatype Pass = Pass(now: int, possible: bool, issued: Issued)

  function Reconciled(s: Stored, passes: seq<Pass>, renewBefore: int, selfSignedRenewBefore: int): Stored {
    if passes == [] then s
    else
      var before := Reconciled(s, passes[..|passes| - 1], renewBefore, selfSignedRenewBefore);
      var p := passes[|passes| - 1];
      if AsksForIssuance(Reloaded(before), p.now, p.possible, renewBefore, selfSignedRenewBefore) then Store(before, p.issued, |passes|)
      else before
  }

  /** A domain that has flipped is served from the mirrored copy for ever: no pass asks for another
      certificate, before that copy expires or after. */
  lemma {:induction false} FlippedForGood(s: Stored, passes: seq<Pass>, renewBefore: int, selfSignedRenewBefore: int)
    requires Reloaded(s).Some? && Reloaded(s).value.info.source.File?
    ensures Reconciled(s, passes, renewBefore, selfSignedRenewBefore) == s
  {
    if passes != [] {
      FlippedForGood(s, passes[..|passes| - 1], renewBefore, selfSignedRenewBefore);
    }
  }
}
