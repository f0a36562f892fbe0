/** Endpoint lists as every balancer sees them (rpc/balancer.go). */
module Endpoints {
  import opened GoStrings

  datatype PickError = Cancelled | NoEndpoint

  /** One endpoint, trimmed of white space and trailing slashes. */
  function Clean(endpoint: string): string {
    TrimRight(TrimSpace(endpoint), '/')
  }

  /** The cleaned, non-empty endpoints in order of first occurrence. */
  function Normalized(endpoints: seq<string>): seq<string> {
    if endpoints == [] then []
    else
      var init := Normalized(endpoints[..|endpoints| - 1]);
      var last := Clean(endpoints[|endpoints| - 1]);
      if last == "" || last in init then init else init + [last]
  }

  /** What a balancer may rely on: no empty endpoint, no endpoint twice. */
  ghost predicate IsCandidateList(cands: seq<string>) {
    Distinct(cands) && "" !in cands
  }

  method NormalizeEndpoints(endpoints: seq<string>) returns (out: seq<string>)
    ensures out == Normalized(endpoints)
  {
    out := [];
    var seen: set<string> := {};
    for i := 0 to |endpoints|
      invariant out == Normalized(endpoints[..i])
      invariant forall e :: e in seen <==> e in out
    {
      assert endpoints[..i + 1][..i] == endpoints[..i];
      var endpoint := Clean(endpoints[i]);
      if endpoint == "" || endpoint in seen {
        continue;
      }
      seen := seen + {endpoint};
      out := out + [endpoint];
    }
    assert endpoints[..|endpoints|] == endpoints;
  }

  /** The string spells endpoint `e`: white space around it, and slashes after it, make no difference. */
  ghost predicate Spells(s: string, e: string) {
    exists l, slashes, r ::
      && s == l + (e + slashes) + r
      && AllSpace(l) && AllSpace(r) && AllChar(slashes, '/')
      && IsTrimmed(e + slashes) && (e == "" || e[|e| - 1] != '/')
  }

  /** Two spellings are one endpoint exactly when both spell it. */
  lemma CleanIsWhatIsSpelled(s: string, e: string)
    ensures Clean(s) == e <==> Spells(s, e)
  {
    if Clean(s) == e {
      var l, r := TrimSpaceSplits(s);
      var slashes := TrimRightSplits(TrimSpace(s), '/');
      assert s == l + (e + slashes) + r;
    }
    if Spells(s, e) {
      var l, slashes, r :|
        && s == l + (e + slashes) + r
        && AllSpace(l) && AllSpace(r) && AllChar(slashes, '/')
        && IsTrimmed(e + slashes) && (e == "" || e[|e| - 1] != '/');
      TrimSpaceOf(l, e + slashes, r);
      TrimRightOf(e, slashes, '/');
    }
  }

  lemma {:induction false} NormalizedIsCandidateList(endpoints: seq<string>)
    ensures IsCandidateList(Normalized(endpoints))
  {
    if endpoints != [] {
      NormalizedIsCandidateList(endpoints[..|endpoints| - 1]);
    }
  }

  /** Some spelling of endpoint `e` is in the raw list. */
  ghost predicate Spelled(endpoints: seq<string>, e: string) {
    exists i :: 0 <= i < |endpoints| && Clean(endpoints[i]) == e
  }

  lemma {:induction false} NormalizedMember(endpoints: seq<string>, e: string)
    ensures e in Normalized(endpoints) <==> e != "" && Spelled(endpoints, e)
  {
    if endpoints != [] {
      var n := |endpoints| - 1;
      NormalizedMember(endpoints[..n], e);
    }
  }

  /** `cands` without endpoint `gone`, the others in the same order. */
  function Without(cands: seq<string>, gone: string): (r: seq<string>)
    ensures gone !in r
    ensures forall e :: e in r <==> e in cands && e != gone
  {
    if cands == [] then []
    else
      var init := Without(cands[..|cands| - 1], gone);
      var last := cands[|cands| - 1];
      if last == gone then init else init + [last]
  }

  /** The raw list without every spelling of endpoint `gone`. */
  function WithoutSpellings(endpoints: seq<string>, gone: string): seq<string> {
    if endpoints == [] then []
    else
      var init := WithoutSpellings(endpoints[..|endpoints| - 1], gone);
      var last := endpoints[|endpoints| - 1];
      if Clean(last) == gone then init else init + [last]
  }

  /** Removing an endpoint from the raw list removes just that candidate. */
  lemma {:induction false} NormalizedWithout(endpoints: seq<string>, gone: string)
    ensures Normalized(WithoutSpellings(endpoints, gone)) == Without(Normalized(endpoints), gone)
  {
    if endpoints != [] {
      var n := |endpoints| - 1;
      NormalizedWithout(endpoints[..n], gone);
      var init, last := WithoutSpellings(endpoints[..n], gone), endpoints[n];
      assert (init + [last])[..|init|] == init;
      var cands, c := Normalized(endpoints[..n]), Clean(last);
      assert (cands + [c])[..|cands|] == cands;
    }
  }
}
