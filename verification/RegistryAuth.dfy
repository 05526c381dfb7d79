/** What the registry proxy lets a credential open, from the request's path (proxy.go). */
module RegistryAuth {
  import opened Options
  import opened GoStrings
  import opened OciPath
  import opened Token
  import Base64Url

  predicate Ping(path: string) { path == "/v2" || path == "/v2/" }

  /** Whether the credential opens the path at time `now`; the shared secret opens every path. */
  predicate CredentialValid(mac: Mac, secret: string, credential: string, path: string, now: int) {
    var repo := ExtractRepo(path);
    if credential == secret then true
    else if repo != "" then ValidateForRepo(mac, secret, credential, repo, now)
    else Ping(path) && Validate(mac, secret, credential, now)
  }

  /**
   The credentials that open a path, exactly: the shared secret opens every path; any other only
   if its text is an unexpired expiry, a name and the hash of the two, and the name is that of the
   path's repository, or the path has none and is the ping.
   */
  lemma CredentialExactly(mac: Mac, secret: string, credential: string, path: string, now: int)
    requires Hexadecimal(mac)
    ensures CredentialValid(mac, secret, credential, path, now) <==>
      || credential == secret
      || (exists expiry, name ::
            && Accepts(mac, secret, credential, now, expiry, name)
            && if ExtractRepo(path) != "" then name == ExtractRepo(path) else path == "/v2" || path == "/v2/")
  {
    hide Validate, ValidateForRepo, DecodeToken, Accepts, ExtractRepo, Hexadecimal;
    var repo := ExtractRepo(path);
    AcceptedExactly(mac, secret, credential, now);
    NamedExactly(mac, secret, credential, now, repo);
    RepoValidation(mac, secret, credential, repo, now);
  }

  predicate Mintable(mac: Mac, secret: string, name: string, minted: int) {
    Base64Url.Bytes(Raw(mac, secret, Payload(FormatInt(minted + TTL), name)))
  }

  /**
   The paths a minted token opens while it lives: those that the proxy takes for its repository,
   and the ping if they have none; the catalog and unknown paths, never.
   */
  lemma MintedOpens(mac: Mac, secret: string, name: string, minted: int, path: string, now: int)
    requires Hexadecimal(mac) && Base64Url.Bytes(name)
    requires MIN_INT64 <= minted + TTL <= MAX_INT64
    ensures Mintable(mac, secret, name, minted)
    ensures var token := Mint(mac, secret, name, minted);
            token != secret ==>
              (CredentialValid(mac, secret, token, path, now) <==>
                 now <= minted + TTL && if ExtractRepo(path) != "" then name == ExtractRepo(path) else Ping(path))
  {
    hide Base64Url.Bytes, Hexadecimal, Raw, Validate, ValidateForRepo, ExtractRepo, Mint;
    MintedUntilExpiry(mac, secret, name, minted, now);
    MintedForRepo(mac, secret, name, ExtractRepo(path), minted, now);
  }

  /** The path's text but for its last segment: what the proxy may take for the repository. */
  function LongerName(repo: seq<string>, e: Endpoint): string {
    var segments := repo + Suffix(e);
    Join(segments[..|segments|-1], '/')
  }

  /**
   Minting and path extraction composed: a token minted for a repository opens a request for it
   if and only if it has not expired and the request's last chosen segment is not named like an
   operation. If it is, the tokens that open the request are those of the longer name.
   */
  lemma MintedOpensRequest(mac: Mac, secret: string, name: string, minted: int, repo: seq<string>, e: Endpoint, now: int)
    requires Hexadecimal(mac) && Base64Url.Bytes(name)
    requires MIN_INT64 <= minted + TTL <= MAX_INT64
    requires repo != [] && forall s :: s in repo + Suffix(e) ==> Segment(s)
    ensures Mintable(mac, secret, name, minted)
    ensures var token := Mint(mac, secret, name, minted);
            token != secret ==>
              (CredentialValid(mac, secret, token, PathOf(repo, e), now) <==>
                 now <= minted + TTL && name == if Keyword(Chosen(e)) then LongerName(repo, e) else Join(repo, '/'))
    ensures var token := Mint(mac, secret, name, minted);
            token != secret && name == Join(repo, '/') ==>
              (CredentialValid(mac, secret, token, PathOf(repo, e), now) <==>
                 now <= minted + TTL && !Keyword(Chosen(e)))
  {
    hide Base64Url.Bytes, Hexadecimal, Mint, CredentialValid, ExtractRepo, PathOf, Scan, Keyword, Join;
    MintedOpens(mac, secret, name, minted, PathOf(repo, e), now);
    PathSegments(repo, e);
    ScanSuffix(repo, e);
    RepoOfPath(repo, e);
    NamesNotEmpty(repo, e);
    hide Suffix, Chosen, Mintable, FormatInt, Payload, Raw;
  }

  lemma NamesNotEmpty(repo: seq<string>, e: Endpoint)
    requires repo != [] && forall s :: s in repo + Suffix(e) ==> Segment(s)
    ensures Join(repo, '/') != "" && LongerName(repo, e) != ""
  {
    var longer := (repo + Suffix(e))[..|repo + Suffix(e)|-1];
    assert forall s :: s in repo ==> s in repo + Suffix(e);
    assert forall s :: s in longer ==> s in repo + Suffix(e);
    hide Join;
    JoinEdges(repo);
    JoinEdges(longer);
  }
}
