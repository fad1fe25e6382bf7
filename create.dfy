/** api/create.js: POST /api/create makes up a 1secmail mailbox locally:
    a random ten-character login on the fixed domain. `Math.random` is an
    input, as the draws of the login's characters. */
module Create {
  import Names

  const LoginLength: nat := 10
  const Domain: string := "1secmail.com"
  const ProviderName: string := "1secmail"

  datatype CreateBody =
    | MethodNotAllowed
    | Mailbox(address: string, login: string, domain: string, provider: string)

  datatype Reply = Reply(status: int, body: CreateBody)

  /** `handler(req, res)`: 405 for anything but POST; otherwise the login the
      draws spell, on "1secmail.com", and the address made of the two, which
      splits back into exactly the login and domain the reply echoes. */
  method Handle(reqMethod: string, draws: seq<nat>) returns (reply: Reply)
    requires LoginLength <= |draws| && Names.ValidDraws(draws)
    ensures reqMethod != "POST" ==> reply == Reply(405, MethodNotAllowed)
    ensures reqMethod == "POST" ==>
      && reply.status == 200 && reply.body.Mailbox?
      && |reply.body.login| == LoginLength && Names.InAlphabet(reply.body.login)
      && reply.body.login == Names.Spell(draws[..LoginLength])
      && reply.body.domain == Domain && reply.body.provider == ProviderName
      && Names.SplitAddress(reply.body.address) == (reply.body.login, reply.body.domain)
  {
    if reqMethod != "POST" {
      return Reply(405, MethodNotAllowed);
    }
    var login := Names.RandomString(LoginLength, draws);
    var address := Names.Address(login, Domain);
    Names.GeneratedNameSplits(login, Domain);
    return Reply(200, Mailbox(address, login, Domain, ProviderName));
  }
}
