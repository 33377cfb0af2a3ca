/**
 * The client-side route guard (src/app/components/ProtectedRoute.tsx): it
 * starts out verifying, reads the stored token, and either redirects to the
 * login page or lets its children render.
 */
module ProtectedRoute {
  import opened Wrappers

  const LoginPath: string := "/login"

  /** What the guard renders. */
  datatype Screen = FullScreenLoader | Children

  /** `!token` is false: the token is stored and non-empty. */
  predicate HasToken(token: Option<string>)
  {
    token.Some? && token.value != ""
  }

  /** The guard's observable state: its `isVerifying` flag and the redirects it has issued. */
  datatype GuardState = GuardState(isVerifying: bool, redirects: seq<string>)

  /** One run of the token-check effect. */
  function Check(s: GuardState, token: Option<string>): (r: GuardState)
    ensures r.isVerifying <==> s.isVerifying && !HasToken(token)
    ensures HasToken(token) ==> r.redirects == s.redirects
    ensures !HasToken(token) ==> |r.redirects| == |s.redirects| + 1 && r.redirects[..|s.redirects|] == s.redirects && r.redirects[|s.redirects|] == LoginPath
  {
    if !HasToken(token) then s.(redirects := s.redirects + [LoginPath])
    else s.(isVerifying := false)
  }

  /** The state after the effect has run once for each token read, in order. */
  function Run(s: GuardState, tokens: seq<Option<string>>): GuardState
    decreases |tokens|
  {
    if tokens == [] then s else Run(Check(s, tokens[0]), tokens[1..])
  }

  /** The number of token reads that found no token. */
  function Missing(tokens: seq<Option<string>>): nat
  {
    if tokens == [] then 0 else (if HasToken(tokens[0]) then 0 else 1) + Missing(tokens[1..])
  }

  /**
   * Starting from `s`, the guard is still verifying exactly when it was and no
   * read found a token; it redirects to the login page once per read without
   * a token, and never to anywhere else.
   */
  lemma {:induction false} RunOutcome(s: GuardState, tokens: seq<Option<string>>)
    ensures Run(s, tokens).isVerifying <==> s.isVerifying && forall i :: 0 <= i < |tokens| ==> !HasToken(tokens[i])
    ensures |Run(s, tokens).redirects| == |s.redirects| + Missing(tokens)
    ensures Run(s, tokens).redirects[..|s.redirects|] == s.redirects
    ensures forall i :: |s.redirects| <= i < |Run(s, tokens).redirects| ==> Run(s, tokens).redirects[i] == LoginPath
    decreases |tokens|
  {
    if tokens != [] {
      var s' := Check(s, tokens[0]);
      RunOutcome(s', tokens[1..]);
      assert forall i :: 1 <= i < |tokens| ==> tokens[1..][i - 1] == tokens[i];
      var r := Run(s', tokens[1..]).redirects;
      assert r[..|s.redirects|] == r[..|s'.redirects|][..|s.redirects|];
    }
  }

  /** Once the guard has stopped verifying it never verifies again. */
  lemma {:induction false} NeverBackToVerifying(s: GuardState, tokens: seq<Option<string>>)
    requires !s.isVerifying
    ensures !Run(s, tokens).isVerifying
    decreases |tokens|
  {
    if tokens != [] {
      NeverBackToVerifying(Check(s, tokens[0]), tokens[1..]);
    }
  }

  /** The component: its `isVerifying` state and the router's redirects. */
  class Guard {
    var isVerifying: bool
    var redirects: seq<string>

    function State(): GuardState
      reads this
    {
      GuardState(isVerifying, redirects)
    }

    /** `useState(true)`: the guard starts out verifying, with no redirect. */
    constructor ()
      ensures isVerifying && redirects == []
    {
      isVerifying := true;
      redirects := [];
    }

    /**
     * The effect: without a token, `router.replace('/login')` and the flag
     * stays as it was; with one, the flag drops and nothing is redirected.
     */
    method CheckToken(token: Option<string>)
      modifies this
      ensures State() == Check(old(State()), token)
      ensures !HasToken(token) ==> redirects == old(redirects) + [LoginPath] && isVerifying == old(isVerifying)
      ensures HasToken(token) ==> redirects == old(redirects) && !isVerifying
    {
      if token.None? || token.value == "" {
        redirects := redirects + [LoginPath];
      } else {
        isVerifying := false;
      }
    }

    /** The loader while verifying, the children afterwards. */
    function Render(): (screen: Screen)
      reads this
      ensures screen == FullScreenLoader <==> isVerifying
      ensures screen == Children <==> !isVerifying
    {
      if isVerifying then FullScreenLoader else Children
    }
  }
}
