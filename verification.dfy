/** The verification callback a CI run sends after testing a mission's
    template repository: a shared secret, then the new status by name,
    matched without regard to case. There is no transition table: any of the
    five statuses may replace any other. */
module Verification {
  import opened Errors
  import opened Authority
  import opened Entities
  import opened Store
  import opened MissionService

  /** String.toUpperCase on one character, for the characters whose upper
      case contains an ASCII letter: a-z, the dotless i, the long s, the
      sharp s and the Latin ligatures. Every other character is kept as it
      is; Java maps some of those to other non-ASCII characters, which makes
      no difference to whether the result spells one of the (ASCII) status
      names. */
  function UpperOf(c: char): (u: string)
    ensures 1 <= |u| <= 3
  {
    if 'a' <= c <= 'z' then [(c as int - 32) as char]
    else if c == '\U{0131}' then "I"            // dotless i
    else if c == '\U{017F}' then "S"            // long s
    else if c == '\U{00DF}' then "SS"           // sharp s
    else if c == '\U{FB00}' then "FF"
    else if c == '\U{FB01}' then "FI"
    else if c == '\U{FB02}' then "FL"
    else if c == '\U{FB03}' then "FFI"
    else if c == '\U{FB04}' then "FFL"
    else if c == '\U{FB05}' || c == '\U{FB06}' then "ST"
    else [c]
  }

  function ToUpper(s: string): (u: string)
    ensures |u| >= |s|
  {
    if s == [] then [] else UpperOf(s[0]) + ToUpper(s[1..])
  }

  /** VerificationStatus.valueOf(status.toUpperCase()). */
  function ParseStatus(status: string): (r: Option<VerificationStatus>)
    ensures r.Some? ==> StatusName(r.value) == ToUpper(status)
    ensures r.None? ==> forall v :: StatusName(v) != ToUpper(status)
  {
    var u := ToUpper(status);
    if u == "PENDING" then Some(Pending)
    else if u == "SUCCESS" then Some(Success)
    else if u == "FAILED" then Some(Failed)
    else if u == "REVIEW_NEEDED" then Some(ReviewNeeded)
    else if u == "DRAFT" then Some(Draft)
    else None
  }

  /** ASCII lower case of one character. */
  function LowerOf(c: char): char
  {
    if 'A' <= c <= 'Z' then (c as int + 32) as char else c
  }

  /** ASCII lower case, the form a CI script is likely to send. */
  function Lower(s: string): (l: string)
    ensures |l| == |s| && forall i :: 0 <= i < |s| ==> l[i] == LowerOf(s[i])
  {
    if s == [] then [] else [LowerOf(s[0])] + Lower(s[1..])
  }

  predicate NameLike(s: string)
  {
    forall i :: 0 <= i < |s| ==> ('A' <= s[i] <= 'Z' || s[i] == '_')
  }

  /** Upper-casing leaves a name alone and undoes lower-casing on it. */
  lemma {:induction false} UpperOfName(s: string)
    requires NameLike(s)
    ensures ToUpper(s) == s && ToUpper(Lower(s)) == s
  {
    if s != [] {
      UpperOfName(s[1..]);
      var l := Lower(s);
      assert l[1..] == Lower(s[1..]);
      assert UpperOf(s[0]) == [s[0]];
      assert UpperOf(l[0]) == [s[0]];
      assert s == [s[0]] + s[1..];
    }
  }

  /** A string whose upper case spells a status parses to that status. */
  lemma ParseByUpper(s: string, v: VerificationStatus)
    requires ToUpper(s) == StatusName(v)
    ensures ParseStatus(s) == Some(v)
  {
    forall w | StatusName(w) == StatusName(v) ensures w == v {
      StatusesExhaustive(v, w);
    }
  }

  /** Every status is recognised by its own name and by its name in lower
      case, so each of the five can be sent. */
  lemma {:induction false} EveryStatusParses(v: VerificationStatus)
    ensures ParseStatus(StatusName(v)) == Some(v)
    ensures ParseStatus(Lower(StatusName(v))) == Some(v)
  {
    var n := StatusName(v);
    assert NameLike(n);
    UpperOfName(n);
    ParseByUpper(n, v);
    ParseByUpper(Lower(n), v);
  }

  /** Java's upper-casing lets the long s stand for 'S': "\u017Fuccess",
      the long s followed by the rest of SUCCESS in lower case, is a success. */
  lemma LongSParses()
    ensures ParseStatus("\U{017F}" + Lower(StatusName(Success)[1..])) == Some(Success)
  {
    var n := StatusName(Success);
    var t := n[1..];
    assert NameLike(t) by { assert NameLike(n); }
    var w := "\U{017F}" + Lower(t);
    assert ToUpper(w) == n by {
      UpperOfName(t);
      assert w[0] == '\U{017F}' && w[1..] == Lower(t);
      assert n == [n[0]] + t;
    }
    ParseByUpper(w, Success);
  }

  /** An unknown word is refused. */
  lemma UnknownStatusRefused()
    ensures ParseStatus("done").None?
  {
    var u := "DONE";
    assert ToUpper(Lower(u)) == u by {
      assert NameLike(u);
      UpperOfName(u);
    }
    assert Lower(u) == "done";
    assert u != "PENDING" && u != "SUCCESS" && u != "FAILED" && u != "REVIEW_NEEDED" && u != "DRAFT" by {
      assert u[0] == 'D' && u[1] == 'O';
    }
  }

  /** The decision of the callback before anything is written. */
  datatype Decision = Reject(code: int) | Apply(status: VerificationStatus)

  /** The secret is compared first, exactly; then the status is parsed. */
  function Decide(configured: string, secret: string, status: string): (d: Decision)
    ensures d == Reject(401) <==> secret != configured
    ensures d == Reject(400) <==> secret == configured && ParseStatus(status).None?
    ensures d.Apply? ==> secret == configured && ParseStatus(status) == Some(d.status)
  {
    if secret != configured then Reject(401)
    else
      match ParseStatus(status)
      case None => Reject(400)
      case Some(v) => Apply(v)
  }

  /** handleVerificationCallback: 401 on a wrong secret, 400 on an unknown
      status, both with no change; otherwise the mission's status is
      overwritten and the answer is 204, or 404 for an unknown mission. A
      callback that repeats the current status leaves the mission as it was,
      update time included. */
  method HandleCallback(db: Db, configured: string, missionId: Id, status: string, secret: string, now: Instant)
    returns (code: int)
    modifies db`missions
    ensures Decide(configured, secret, status).Reject? ==>
      code == Decide(configured, secret, status).code && db.missions == old(db.missions)
    ensures Decide(configured, secret, status).Apply? && missionId !in old(db.missions) ==>
      code == StatusOf(ResourceNotFound) && db.missions == old(db.missions)
    ensures Decide(configured, secret, status).Apply? && missionId in old(db.missions) ==>
      code == 204 &&
      db.missions == old(db.missions)[missionId := WithStatus(old(db.missions)[missionId], Decide(configured, secret, status).status, now)]
    ensures Decide(configured, secret, status).Apply? && missionId in old(db.missions) &&
            old(db.missions)[missionId].verificationStatus == Decide(configured, secret, status).status
      ==> db.missions == old(db.missions)
  {
    var decision := Decide(configured, secret, status);
    if decision.Reject? {
      return decision.code;
    }
    var r := UpdateVerificationStatus(db, missionId, decision.status, now);
    code := if r.Err? then StatusOf(r.error) else 204;
  }

  /** No transition table: with the right secret, every status can be
      written over every current status, in upper or lower case. */
  lemma AnyStatusFromAnyState(configured: string, v: VerificationStatus)
    ensures Decide(configured, configured, StatusName(v)) == Apply(v)
    ensures Decide(configured, configured, Lower(StatusName(v))) == Apply(v)
  {
    EveryStatusParses(v);
  }
}
