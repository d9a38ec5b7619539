/** Choosing the social-login handler for a provider: the registered
    handlers are asked in order and the first that supports the provider is
    used. */
module OAuth {
  import opened Common
  import opened Credentials

  /** The handlers the application registers; only Kakao exists. */
  datatype OAuthClient = KakaoClient

  /** `supports` of each handler. */
  function Supports(client: OAuthClient, provider: SocialProvider): bool {
    match client
    case KakaoClient => provider == Kakao
  }

  /** The position of the first handler that supports the provider, or
      the length of the list when none does. */
  function FirstSupporting<S>(services: seq<S>, supports: (S, SocialProvider) -> bool,
                              provider: SocialProvider): (i: nat)
    ensures i <= |services|
    ensures i < |services| ==> supports(services[i], provider)
    ensures forall j | 0 <= j < i :: !supports(services[j], provider)
  {
    if services == [] || supports(services[0], provider) then 0
    else 1 + FirstSupporting(services[1..], supports, provider)
  }

  /** `getOAuthService`: the first handler, in list order, that supports
      the provider; none is `AUTH_SOCIAL_PROVIDER_NOT_SUPPORTED`. */
  function GetOAuthService<S>(services: seq<S>, supports: (S, SocialProvider) -> bool,
                              provider: SocialProvider): (r: Result<S>)
    ensures r.Ok? ==> supports(r.value, provider)
    ensures r.Ok? ==> exists i | 0 <= i < |services| :: services[i] == r.value
                        && forall j | 0 <= j < i :: !supports(services[j], provider)
    ensures r.Err? <==> forall i | 0 <= i < |services| :: !supports(services[i], provider)
    ensures r.Err? ==> r.status == AuthSocialProviderNotSupported
  {
    var i := FirstSupporting(services, supports, provider);
    if i < |services| then Ok(services[i]) else Err(AuthSocialProviderNotSupported)
  }

  /** Handlers after the first supporting one are never consulted. */
  lemma {:induction false} LaterServicesIrrelevant<S>(front: seq<S>, back: seq<S>,
                                                      supports: (S, SocialProvider) -> bool,
                                                      provider: SocialProvider)
    requires GetOAuthService(front, supports, provider).Ok?
    ensures GetOAuthService(front + back, supports, provider) == GetOAuthService(front, supports, provider)
  {
    FirstPrefix(front, back, supports, provider);
  }

  lemma {:induction false} FirstPrefix<S>(front: seq<S>, back: seq<S>,
                                          supports: (S, SocialProvider) -> bool,
                                          provider: SocialProvider)
    requires FirstSupporting(front, supports, provider) < |front|
    ensures FirstSupporting(front + back, supports, provider) == FirstSupporting(front, supports, provider)
  {
    assert (front + back)[0] == front[0];
    if !supports(front[0], provider) {
      assert (front + back)[1..] == front[1..] + back;
      FirstPrefix(front[1..], back, supports, provider);
    }
  }

  /** With only the Kakao handler registered, KAKAO resolves to it and
      every other provider is refused. */
  lemma KakaoOnly(provider: SocialProvider)
    ensures GetOAuthService([KakaoClient], Supports, provider)
            == if provider == Kakao then Ok(KakaoClient) else Err(AuthSocialProviderNotSupported)
  {
  }
}
