/**
 * The member-facing commands (cogs/user.py): the chat-coin listener, the command
 * gate, peer payment, company deposit and the purchase of services.
 *
 * Discord replies are modelled as the `Reply` values a command sends, in order;
 * the ledger is the `Economy.Ledger` the commands call into.
 */
module UserCog {
  import opened Wrappers
  import opened Database
  import opened Text
  import opened Seqs
  import opened Companies
  import opened Economy

  // ----- Channel allow-list lookup -----

  /**
   * `binary_search` as written: -1 when the first element not below `x` exists
   * and differs from `x`, and no value (None) otherwise, which includes the case
   * where every element is below `x`.
   */
  function BinarySearch(a: seq<int>, x: int): (r: Option<int>)
    ensures r.Some? ==> r.value == -1
  {
    var i := BisectLeft(a, x, 0, |a|);
    if |a| > i && a[i] != x then Some(-1) else None
  }

  /** On a sorted list, `binary_search` reports -1 exactly when `x` is absent and some element exceeds it. */
  lemma BinarySearchAsWritten(a: seq<int>, x: int)
    requires Ascending(a)
    ensures BinarySearch(a, x) == Some(-1) <==> x !in a && exists k :: 0 <= k < |a| && x < a[k]
  {
    var i := BisectLeft(a, x, 0, |a|);
    if |a| > i && a[i] != x {
      forall k | 0 <= k < |a|
        ensures a[k] != x
      {
        if i <= k {
          assert a[i] <= a[k];
        }
      }
      assert x < a[i];
    } else if |a| > i {
      assert a[i] == x;
    } else {
      assert forall k :: 0 <= k < |a| ==> a[k] < x;
    }
  }

  /**
   * The discrepancy: an id larger than every allow-listed channel is absent from
   * a non-empty allow-list, yet `binary_search` does not report -1 for it.
   */
  lemma BinarySearchMissesLargerIds(a: seq<int>, x: int)
    requires Ascending(a) && a != []
    requires forall k :: 0 <= k < |a| ==> a[k] < x
    ensures x !in a
    ensures BinarySearch(a, x) == None
  {
  }

  /** The lookup the allow-list check intends: `x` is one of the listed channels. */
  function Whitelisted(a: seq<int>, x: int): (found: bool)
    ensures found ==> x in a
    ensures Ascending(a) && x in a ==> found
  {
    var i := BisectLeft(a, x, 0, |a|);
    WhitelistedComplete(a, x, i);
    i < |a| && a[i] == x
  }

  /** On a sorted list, the first position not below `x` holds `x` whenever `x` occurs. */
  lemma WhitelistedComplete(a: seq<int>, x: int, i: nat)
    requires i == BisectLeft(a, x, 0, |a|)
    ensures Ascending(a) && x in a ==> i < |a| && a[i] == x
  {
    if Ascending(a) && x in a {
      var k :| 0 <= k < |a| && a[k] == x;
      assert i <= k;
      assert x <= a[i] <= a[k];
    }
  }

  // ----- Coins for chatting -----

  datatype ChannelType = TextChannel | OtherChannel

  /** The parts of a Discord message the listener looks at. */
  datatype Message = Message(authorId: MemberId, authorIsBot: bool, channelType: ChannelType,
                             channelId: ChannelId, content: string)

  /** The `[CoinsByChat]` section of the configuration. */
  datatype ChatConfig = ChatConfig(coinsForMessage: int, minChars: int, whitelistedChannels: seq<ChannelId>)

  /**
   * What `on_message` credits for a message: nothing for bots, for non-text
   * channels, for channels a non-empty allow-list rejects through `binary_search`
   * and for messages shorter than `minChars`; otherwise `coinsForMessage`. As
   * written, the allow-list also lets through a channel whose id is above every
   * listed one.
   */
  function ChatCredit(msg: Message, cfg: ChatConfig): (r: Option<int>)
    ensures Ascending(cfg.whitelistedChannels) ==>
              (r.Some? <==> && !msg.authorIsBot
                            && msg.channelType == TextChannel
                            && (|| cfg.whitelistedChannels == []
                                || msg.channelId in cfg.whitelistedChannels
                                || forall k :: 0 <= k < |cfg.whitelistedChannels| ==> cfg.whitelistedChannels[k] < msg.channelId)
                            && |msg.content| >= cfg.minChars)
    ensures r.Some? ==> r.value == cfg.coinsForMessage
  {
    var whitelist := cfg.whitelistedChannels;
    assert Ascending(whitelist) ==>
             (BinarySearch(whitelist, msg.channelId) == Some(-1) <==>
              msg.channelId !in whitelist && exists k :: 0 <= k < |whitelist| && msg.channelId < whitelist[k]) by {
      if Ascending(whitelist) {
        BinarySearchAsWritten(whitelist, msg.channelId);
      }
    }
    if msg.authorIsBot then None
    else if msg.channelType != TextChannel then None
    else if |whitelist| != 0 && BinarySearch(whitelist, msg.channelId) == Some(-1) then None
    else if |msg.content| >= cfg.minChars then Some(cfg.coinsForMessage)
    else None
  }

  /** The chat-coin gate the allow-list is meant to implement: only listed channels earn coins. */
  function ChatCreditIntended(msg: Message, cfg: ChatConfig): (r: Option<int>)
    ensures Ascending(cfg.whitelistedChannels) ==>
              (r.Some? <==> && !msg.authorIsBot
                            && msg.channelType == TextChannel
                            && (cfg.whitelistedChannels == [] || msg.channelId in cfg.whitelistedChannels)
                            && |msg.content| >= cfg.minChars)
    ensures r.Some? ==> r.value == cfg.coinsForMessage
  {
    if msg.authorIsBot then None
    else if msg.channelType != TextChannel then None
    else if |cfg.whitelistedChannels| != 0 && !Whitelisted(cfg.whitelistedChannels, msg.channelId) then None
    else if |msg.content| >= cfg.minChars then Some(cfg.coinsForMessage)
    else None
  }

  /**
   * The gate as written credits everything the intended gate credits, and more
   * exactly for an otherwise creditable message in a channel whose id is above
   * every id of a non-empty allow-list.
   */
  lemma ChatCreditDiffers(msg: Message, cfg: ChatConfig)
    requires Ascending(cfg.whitelistedChannels)
    ensures ChatCreditIntended(msg, cfg).Some? ==> ChatCredit(msg, cfg) == ChatCreditIntended(msg, cfg)
    ensures ChatCredit(msg, cfg) != ChatCreditIntended(msg, cfg) <==>
              && !msg.authorIsBot && msg.channelType == TextChannel && |msg.content| >= cfg.minChars
              && cfg.whitelistedChannels != [] && msg.channelId !in cfg.whitelistedChannels
              && forall k :: 0 <= k < |cfg.whitelistedChannels| ==> cfg.whitelistedChannels[k] < msg.channelId
  {
  }

  /** Allow-list [10], a message in channel 20: the gate as written credits it, the intended one does not. */
  lemma ChatCreditAboveListedIds()
    ensures var msg := Message(1, false, TextChannel, 20, "hello");
            var cfg := ChatConfig(5, 1, [10]);
            ChatCredit(msg, cfg) == Some(5) && ChatCreditIntended(msg, cfg) == None
  {
    var a: seq<int> := [10];
    assert Ascending(a);
    BinarySearchMissesLargerIds(a, 20);
  }

  /** `on_message`: credit the author through `add_to_balance` when the message earns coins. */
  method OnMessage(ledger: Ledger, msg: Message, cfg: ChatConfig)
    requires ledger.Valid()
    modifies ledger
    ensures ledger.Valid() && ledger.companies == old(ledger.companies)
    ensures ChatCredit(msg, cfg).None? ==> ledger.users == old(ledger.users)
    ensures ChatCredit(msg, cfg).Some? ==>
              ledger.users == Added(old(ledger.users), msg.authorId, ChatCredit(msg, cfg).value)
  {
    if msg.authorIsBot {
      return;
    }
    if msg.channelType != TextChannel {
      return;
    }
    var whitelist := cfg.whitelistedChannels;
    if |whitelist| != 0 {
      if BinarySearch(whitelist, msg.channelId) == Some(-1) {
        return;
      }
    }
    if |msg.content| >= cfg.minChars {
      var _ := ledger.AddToBalance(msg.authorId, cfg.coinsForMessage);
    }
  }

  // ----- Command gate -----

  datatype CheckOutcome = Allow | Deny | BlacklistedError

  /**
   * `cog_check`: with a command channel configured (`Some`), non-administrators
   * may only use the commands there; a permitted author with a blacklisted row
   * gets the Blacklisted error instead, as `is_blacklisted` reports it.
   */
  function CogCheck(ledger: Ledger, cmdChannel: Option<ChannelId>, authorId: MemberId,
                    isAdmin: bool, channelId: ChannelId): (r: CheckOutcome)
    reads ledger
    ensures r == Deny <==> cmdChannel.Some? && !isAdmin && cmdChannel.value != channelId
    ensures r == BlacklistedError <==> r != Deny && authorId in ledger.users && ledger.users[authorId].blacklisted
    ensures r == Allow <==> && (cmdChannel.None? || isAdmin || cmdChannel.value == channelId)
                            && !(authorId in ledger.users && ledger.users[authorId].blacklisted)
  {
    var isCmdChannel := if cmdChannel.Some? && !isAdmin then cmdChannel.value == channelId else true;
    if isCmdChannel && ledger.IsBlacklisted(authorId) then BlacklistedError
    else if isCmdChannel then Allow
    else Deny
  }

  // ----- Replies -----

  /** The embeds the commands send, by message key and arguments. */
  datatype Reply =
    | PayNotEnabled
    | DepositNotEnabled
    | IncorrectAmount
    | NotEnoughCoins
    | NotInCompany
    | NotCompanyAdmin
    | PaySuccess(receiver: MemberId, amount: int, newBalance: int)
    | DepositSuccess(amount: int, newBalance: int)
    | ServiceBought(service: string, result: int)
    | ServiceNotFound(request: string)

  // ----- Payment and deposit -----

  /**
   * `pay`: refused while payments are disabled (unless the author is an
   * administrator) and for amounts that are not positive; otherwise the ledger's
   * `payment`, whose -1 becomes "not enough coins".
   */
  method Pay(ledger: Ledger, author: MemberId, receiver: MemberId, amount: int, payEnabled: bool, isAdmin: bool)
    returns (reply: Reply)
    requires ledger.Valid()
    requires (payEnabled || isAdmin) && amount > 0 && author in ledger.users && ledger.users[author].balance >= amount ==>
               author != receiver
    modifies ledger
    ensures ledger.Valid() && ledger.companies == old(ledger.companies)
    ensures !payEnabled && !isAdmin ==> reply == PayNotEnabled && ledger.users == old(ledger.users)
    ensures (payEnabled || isAdmin) && amount <= 0 ==> reply == IncorrectAmount && ledger.users == old(ledger.users)
    ensures (payEnabled || isAdmin) && amount > 0 && !(author in old(ledger.users) && old(ledger.users)[author].balance >= amount) ==>
              reply == NotEnoughCoins && ledger.users == old(ledger.users)
    ensures (payEnabled || isAdmin) && amount > 0 && author in old(ledger.users) && old(ledger.users)[author].balance >= amount ==>
              && ledger.users == Transfer(old(ledger.users), author, receiver, amount)
              && reply == PaySuccess(receiver, amount, ledger.users[author].balance)
              && reply.newBalance >= 0
  {
    if !payEnabled && !isAdmin {
      return PayNotEnabled;
    }
    if amount <= 0 {
      reply := IncorrectAmount;
    } else {
      var newBalance := ledger.Payment(author, receiver, amount);
      if newBalance == -1 {
        reply := NotEnoughCoins;
      } else {
        reply := PaySuccess(receiver, amount, newBalance);
      }
    }
  }

  /**
   * `company_deposit`: the same two refusals as `pay`, then "not in a company"
   * for an author without one; otherwise the ledger's `company_deposit`, whose -1
   * becomes "not enough coins".
   */
  method CompanyDepositCommand(ledger: Ledger, author: MemberId, amount: int, depositEnabled: bool, isAdmin: bool)
    returns (reply: Reply)
    requires ledger.Valid()
    modifies ledger
    ensures ledger.Valid()
    ensures !depositEnabled && !isAdmin ==>
              reply == DepositNotEnabled && ledger.users == old(ledger.users) && ledger.companies == old(ledger.companies)
    ensures (depositEnabled || isAdmin) && amount <= 0 ==>
              reply == IncorrectAmount && ledger.users == old(ledger.users) && ledger.companies == old(ledger.companies)
    ensures (depositEnabled || isAdmin) && amount > 0 && GetCompanyFor(old(ledger.users), author).None? ==>
              reply == NotInCompany && ledger.users == old(ledger.users) && ledger.companies == old(ledger.companies)
    ensures (depositEnabled || isAdmin) && amount > 0 && GetCompanyFor(old(ledger.users), author).Some?
            && old(ledger.users)[author].balance < amount ==>
              reply == NotEnoughCoins && ledger.users == old(ledger.users) && ledger.companies == old(ledger.companies)
    ensures (depositEnabled || isAdmin) && amount > 0 && GetCompanyFor(old(ledger.users), author).Some?
            && old(ledger.users)[author].balance >= amount ==>
              && Tables(ledger.users, ledger.companies) == Donate(Tables(old(ledger.users), old(ledger.companies)), author, amount)
              && reply == DepositSuccess(amount, ledger.users[author].balance)
              && reply.newBalance >= 0
  {
    if !depositEnabled && !isAdmin {
      return DepositNotEnabled;
    }
    if amount <= 0 {
      reply := IncorrectAmount;
    } else {
      var companyName := GetCompanyFor(ledger.users, author);
      if companyName.None? {
        reply := NotInCompany;
      } else {
        var newBalance := ledger.CompanyDeposit(author, amount);
        if newBalance == -1 {
          reply := NotEnoughCoins;
        } else {
          reply := DepositSuccess(amount, newBalance);
        }
      }
    }
  }

  // ----- Services -----

  /** A configured service: its section name and its cost. */
  datatype Service = Service(name: string, cost: int)

  /** The configured services whose name equals the request once both are lower-cased, in order. */
  function Matches(services: seq<Service>, request: string): (r: seq<Service>)
    ensures |r| <= |services|
    ensures forall s :: s in r <==> s in services && Lower(s.name) == Lower(request)
  {
    if services == [] then []
    else
      var s := services[|services| - 1];
      var prefix := services[..|services| - 1];
      assert services == prefix + [s];
      Matches(prefix, request) + (if Lower(s.name) == Lower(request) then [s] else [])
  }

  /** Requests that lower-case alike find the same services, in the same order. */
  lemma {:induction false} MatchesIgnoresCase(services: seq<Service>, a: string, b: string)
    requires Lower(a) == Lower(b)
    ensures Matches(services, a) == Matches(services, b)
    decreases |services|
  {
    if services != [] {
      MatchesIgnoresCase(services[..|services| - 1], a, b);
    }
  }

  /** Lower-casing the request first changes nothing: the comparison already ignores case. */
  lemma {:induction false} MatchesLowerRequest(services: seq<Service>, request: string)
    ensures Matches(services, Lower(request)) == Matches(services, request)
  {
    LowerIdempotent(request);
    MatchesIgnoresCase(services, Lower(request), request);
  }

  /** One more configured service extends the matches by it or by nothing. */
  lemma MatchesSnoc(services: seq<Service>, request: string, i: nat)
    requires i < |services|
    ensures Matches(services[..i + 1], request) ==
            Matches(services[..i], request) + (if Lower(services[i].name) == Lower(request) then [services[i]] else [])
  {
    assert services[..i + 1][..i] == services[..i];
  }

  /** The reply for one purchase: the value returned, or "not enough coins" for -1. */
  function PurchaseReply(s: Service, result: int): Reply
  {
    if result != -1 then ServiceBought(s.name, result) else NotEnoughCoins
  }

  /** The costs of the services whose purchase the replies report as made. */
  function Spent(bought: seq<Service>, replies: seq<Reply>): int
    requires |replies| == |bought|
  {
    if bought == [] then 0
    else
      Spent(bought[..|bought| - 1], replies[..|replies| - 1])
      + (if replies[|replies| - 1].ServiceBought? then bought[|bought| - 1].cost else 0)
  }

  /** Buying each of `bought` in turn for member `id` through `buy_service`: the new table and the replies. */
  function UserServiceRun(users: map<MemberId, User>, id: MemberId, bought: seq<Service>, force: bool)
    : (r: (map<MemberId, User>, seq<Reply>))
    ensures |r.1| == |bought|
  {
    if bought == [] then (users, [])
    else
      var prefix := bought[..|bought| - 1];
      var s := bought[|bought| - 1];
      var prev := UserServiceRun(users, id, prefix, force);
      var step := UserPurchase(prev.0, id, s.cost, force);
      (step.0, prev.1 + [PurchaseReply(s, step.1)])
  }

  /** One more purchase at the end of a run. */
  lemma UserServiceRunSnoc(users: map<MemberId, User>, id: MemberId, bought: seq<Service>, s: Service, force: bool)
    ensures var prev := UserServiceRun(users, id, bought, force);
            var step := UserPurchase(prev.0, id, s.cost, force);
            UserServiceRun(users, id, bought + [s], force) == (step.0, prev.1 + [PurchaseReply(s, step.1)])
  {
    assert (bought + [s])[..|bought|] == bought;
  }

  /** Each purchase of a run answers "bought", naming its service, or "not enough coins". */
  lemma {:induction false} UserServiceRunReplies(users: map<MemberId, User>, id: MemberId, bought: seq<Service>, force: bool)
    ensures var r := UserServiceRun(users, id, bought, force);
            forall k :: 0 <= k < |bought| ==>
              r.1[k] == NotEnoughCoins || (r.1[k].ServiceBought? && r.1[k].service == bought[k].name)
    decreases |bought|
  {
    if bought != [] {
      var prefix := bought[..|bought| - 1];
      UserServiceRunReplies(users, id, prefix, force);
      var r := UserServiceRun(users, id, bought, force);
      assert r.1[..|r.1| - 1] == UserServiceRun(users, id, prefix, force).1;
    }
  }

  /**
   * What a run of user purchases does: one reply per service, each "bought" or
   * "not enough coins"; only the buyer's balance moves, and unforced it falls by
   * exactly the cost of the purchases reported as made, never below zero from a
   * non-negative start. A forced run, or a member without a row, changes nothing.
   */
  lemma {:induction false} UserServiceRunEffect(users: map<MemberId, User>, id: MemberId, bought: seq<Service>, force: bool)
    ensures var r := UserServiceRun(users, id, bought, force);
            && r.0.Keys == users.Keys
            && (forall m :: m in users && m != id ==> r.0[m] == users[m])
            && (id in users ==> r.0[id] == users[id].(balance := r.0[id].balance))
    ensures id !in users || force ==> UserServiceRun(users, id, bought, force).0 == users
    ensures var r := UserServiceRun(users, id, bought, force);
            !force && id in users ==> r.0[id].balance == users[id].balance - Spent(bought, r.1)
    ensures var r := UserServiceRun(users, id, bought, force);
            !force && id in users && users[id].balance >= 0 ==> r.0[id].balance >= 0
    decreases |bought|
  {
    if bought != [] {
      var prefix := bought[..|bought| - 1];
      var s := bought[|bought| - 1];
      UserServiceRunEffect(users, id, prefix, force);
      var prev := UserServiceRun(users, id, prefix, force);
      var r := UserServiceRun(users, id, bought, force);
      assert r.1[..|r.1| - 1] == prev.1;
      assert forall k :: 0 <= k < |prefix| ==> bought[k] == prefix[k];
    }
  }

  /**
   * `give_user_service`: every configured service matching the request is bought
   * in turn; "service not found" exactly when none matches.
   */
  function GiveUserServiceSpec(users: map<MemberId, User>, id: MemberId, services: seq<Service>,
                               request: string, force: bool): (r: (map<MemberId, User>, seq<Reply>))
    ensures ServiceNotFound(request) in r.1 <==> forall s :: s in services ==> Lower(s.name) != Lower(request)
    ensures r.1 != []
    ensures r.0.Keys == users.Keys
    ensures forall m :: m in users && m != id ==> r.0[m] == users[m]
    ensures !force && id in users && users[id].balance >= 0 ==> r.0[id].balance >= 0
  {
    var matching := Matches(services, request);
    if matching == [] then (users, [ServiceNotFound(request)])
    else
      var run := UserServiceRun(users, id, matching, force);
      UserServiceRunReplies(users, id, matching, force);
      UserServiceRunEffect(users, id, matching, force);
      assert matching[0] in services;
      assert ServiceNotFound(request) !in run.1 by {
        forall k | 0 <= k < |run.1|
          ensures run.1[k] != ServiceNotFound(request)
        {
        }
      }
      run
  }

  /** The loop of `give_user_service`, buying through the ledger. */
  method GiveUserService(ledger: Ledger, id: MemberId, services: seq<Service>, request: string, force: bool)
    returns (replies: seq<Reply>)
    requires ledger.Valid()
    modifies ledger
    ensures ledger.Valid() && ledger.companies == old(ledger.companies)
    ensures (ledger.users, replies) == GiveUserServiceSpec(old(ledger.users), id, services, request, force)
  {
    var found := false;
    replies := [];
    for i := 0 to |services|
      invariant ledger.Valid() && ledger.companies == old(ledger.companies)
      invariant found <==> Matches(services[..i], request) != []
      invariant ledger.users == UserServiceRun(old(ledger.users), id, Matches(services[..i], request), force).0
      invariant replies == UserServiceRun(old(ledger.users), id, Matches(services[..i], request), force).1
    {
      var s := services[i];
      ghost var matched := Matches(services[..i], request);
      MatchesSnoc(services, request, i);
      if Lower(s.name) == Lower(request) {
        UserServiceRunSnoc(old(ledger.users), id, matched, s, force);
        found := true;
        var result := ledger.BuyService(id, s.cost, force);
        replies := replies + [PurchaseReply(s, result)];
        assert Matches(services[..i + 1], request) == matched + [s];
      } else {
        assert Matches(services[..i + 1], request) == matched;
      }
    }
    assert services[..|services|] == services;
    if !found {
      replies := replies + [ServiceNotFound(request)];
      assert replies == [ServiceNotFound(request)];
    } else {
      assert (ledger.users, replies) == UserServiceRun(old(ledger.users), id, Matches(services, request), force);
    }
  }

  /**
   * Buying each of `bought` in turn for the company row under `key` (the
   * lower-cased company name) through `buy_company_service`.
   */
  function CompanyServiceRun(companies: map<string, Company>, key: string, bought: seq<Service>, force: bool)
    : (r: (map<string, Company>, seq<Reply>))
    ensures |r.1| == |bought|
  {
    if bought == [] then (companies, [])
    else
      var prefix := bought[..|bought| - 1];
      var s := bought[|bought| - 1];
      var prev := CompanyServiceRun(companies, key, prefix, force);
      var step := CompanyPurchase(prev.0, key, s.cost, force);
      (step.0, prev.1 + [PurchaseReply(s, step.1)])
  }

  /**
   * With no company stored under `key` (a company whose stored name has capitals,
   * looked up by its lower-cased name), no balance moves and every purchase
   * answers "not enough coins".
   */
  lemma {:induction false} CompanyServiceRunNoRow(companies: map<string, Company>, key: string, bought: seq<Service>, force: bool)
    requires key !in companies
    ensures CompanyServiceRun(companies, key, bought, force).0 == companies
    ensures forall k :: 0 <= k < |bought| ==> CompanyServiceRun(companies, key, bought, force).1[k] == NotEnoughCoins
    decreases |bought|
  {
    if bought != [] {
      CompanyServiceRunNoRow(companies, key, bought[..|bought| - 1], force);
    }
  }

  /** One more purchase at the end of a company run. */
  lemma CompanyServiceRunSnoc(companies: map<string, Company>, key: string, bought: seq<Service>, s: Service, force: bool)
    ensures var prev := CompanyServiceRun(companies, key, bought, force);
            var step := CompanyPurchase(prev.0, key, s.cost, force);
            CompanyServiceRun(companies, key, bought + [s], force) == (step.0, prev.1 + [PurchaseReply(s, step.1)])
  {
    assert (bought + [s])[..|bought|] == bought;
  }

  /** Each purchase of a run answers "bought", naming its service, or "not enough coins". */
  lemma {:induction false} CompanyServiceRunReplies(companies: map<string, Company>, key: string, bought: seq<Service>, force: bool)
    ensures var r := CompanyServiceRun(companies, key, bought, force);
            forall k :: 0 <= k < |bought| ==>
              r.1[k] == NotEnoughCoins || (r.1[k].ServiceBought? && r.1[k].service == bought[k].name)
    decreases |bought|
  {
    if bought != [] {
      var prefix := bought[..|bought| - 1];
      CompanyServiceRunReplies(companies, key, prefix, force);
      var r := CompanyServiceRun(companies, key, bought, force);
      assert r.1[..|r.1| - 1] == CompanyServiceRun(companies, key, prefix, force).1;
    }
  }

  /** The same for a run of company purchases, on the row under `key`. */
  lemma {:induction false} CompanyServiceRunEffect(companies: map<string, Company>, key: string, bought: seq<Service>, force: bool)
    ensures var r := CompanyServiceRun(companies, key, bought, force);
            && r.0.Keys == companies.Keys
            && (forall n :: n in companies && n != key ==> r.0[n] == companies[n])
            && (key in companies ==> r.0[key] == companies[key].(balance := r.0[key].balance))
    ensures key !in companies || force ==> CompanyServiceRun(companies, key, bought, force).0 == companies
    ensures var r := CompanyServiceRun(companies, key, bought, force);
            !force && key in companies ==> r.0[key].balance == companies[key].balance - Spent(bought, r.1)
    ensures var r := CompanyServiceRun(companies, key, bought, force);
            !force && key in companies && companies[key].balance >= 0 ==> r.0[key].balance >= 0
    decreases |bought|
  {
    if bought != [] {
      var prefix := bought[..|bought| - 1];
      var s := bought[|bought| - 1];
      CompanyServiceRunEffect(companies, key, prefix, force);
      var prev := CompanyServiceRun(companies, key, prefix, force);
      var r := CompanyServiceRun(companies, key, bought, force);
      assert r.1[..|r.1| - 1] == prev.1;
      assert forall k :: 0 <= k < |prefix| ==> bought[k] == prefix[k];
    }
  }

  /** A run of company purchases only moves balances, so the schema stays valid. */
  lemma CompanyServiceRunValid(t: Tables, key: string, bought: seq<Service>, force: bool)
    requires t.Valid()
    ensures Tables(t.users, CompanyServiceRun(t.companies, key, bought, force).0).Valid()
  {
    CompanyServiceRunEffect(t.companies, key, bought, force);
    RebalancedValid(t, CompanyServiceRun(t.companies, key, bought, force).0);
  }

  /**
   * `give_company_service`: "not in a company" for a member without one, then
   * "not a company administrator" for a member without a staff role; otherwise
   * every matching company service is bought in turn, and "service not found"
   * comes exactly when none matches. The users table is never touched.
   */
  function GiveCompanyServiceSpec(t: Tables, member: MemberId, memberRoles: seq<RoleId>,
                                  governatore: Option<RoleId>, console: Option<RoleId>,
                                  services: seq<Service>, request: string, force: bool)
    : (r: (map<string, Company>, seq<Reply>))
    ensures r.1 == [NotInCompany] <==> GetCompanyFor(t.users, member).None?
    ensures r.1 == [NotCompanyAdmin] <==>
              GetCompanyFor(t.users, member).Some? && !IsStaff(memberRoles, governatore, console)
    ensures ServiceNotFound(request) in r.1 <==>
              && GetCompanyFor(t.users, member).Some? && IsStaff(memberRoles, governatore, console)
              && forall s :: s in services ==> Lower(s.name) != Lower(request)
    ensures r.0.Keys == t.companies.Keys
    ensures GetCompanyFor(t.users, member).None? || !IsStaff(memberRoles, governatore, console) ==> r.0 == t.companies
    ensures GetCompanyFor(t.users, member).Some? ==>
              forall n :: n in t.companies && n != Lower(GetCompanyFor(t.users, member).value) ==> r.0[n] == t.companies[n]
  {
    var companyName := GetCompanyFor(t.users, member);
    if companyName.None? then (t.companies, [NotInCompany])
    else if !IsStaff(memberRoles, governatore, console) then (t.companies, [NotCompanyAdmin])
    else
      var matching := Matches(services, request);
      if matching == [] then (t.companies, [ServiceNotFound(request)])
      else
        var run := CompanyServiceRun(t.companies, Lower(companyName.value), matching, force);
        CompanyServiceRunReplies(t.companies, Lower(companyName.value), matching, force);
        CompanyServiceRunEffect(t.companies, Lower(companyName.value), matching, force);
        assert matching[0] in services;
        assert run.1[0] == NotEnoughCoins || run.1[0].ServiceBought?;
        assert ServiceNotFound(request) !in run.1 by {
          forall k | 0 <= k < |run.1|
            ensures run.1[k] != ServiceNotFound(request)
          {
          }
        }
        run
  }

  /** `give_company_service`, buying through the ledger. */
  method GiveCompanyService(ledger: Ledger, member: MemberId, memberRoles: seq<RoleId>,
                            governatore: Option<RoleId>, console: Option<RoleId>,
                            services: seq<Service>, request: string, force: bool)
    returns (replies: seq<Reply>)
    requires ledger.Valid()
    modifies ledger
    ensures ledger.Valid() && ledger.users == old(ledger.users)
    ensures (ledger.companies, replies) ==
            GiveCompanyServiceSpec(Tables(old(ledger.users), old(ledger.companies)), member, memberRoles,
                                   governatore, console, services, request, force)
  {
    var companyName := GetCompanyFor(ledger.users, member);
    if companyName.None? {
      return [NotInCompany];
    }
    if !IsStaff(memberRoles, governatore, console) {
      return [NotCompanyAdmin];
    }
    var found;
    found, replies := BuyMatchingCompanyServices(ledger, companyName.value, services, request, force);
    if !found {
      replies := replies + [ServiceNotFound(request)];
      assert replies == [ServiceNotFound(request)];
    }
  }

  /** The loop of `give_company_service` over the configured company services. */
  method BuyMatchingCompanyServices(ledger: Ledger, companyName: string, services: seq<Service>, request: string, force: bool)
    returns (found: bool, replies: seq<Reply>)
    requires ledger.Valid()
    modifies ledger
    ensures ledger.Valid() && ledger.users == old(ledger.users)
    ensures found <==> Matches(services, request) != []
    ensures (ledger.companies, replies) ==
            CompanyServiceRun(old(ledger.companies), Lower(companyName), Matches(services, request), force)
  {
    ghost var key := Lower(companyName);
    found := false;
    replies := [];
    for i := 0 to |services|
      invariant ledger.users == old(ledger.users)
      invariant found <==> Matches(services[..i], request) != []
      invariant ledger.companies == CompanyServiceRun(old(ledger.companies), key, Matches(services[..i], request), force).0
      invariant replies == CompanyServiceRun(old(ledger.companies), key, Matches(services[..i], request), force).1
    {
      var s := services[i];
      ghost var matched := Matches(services[..i], request);
      MatchesSnoc(services, request, i);
      if Lower(s.name) == Lower(request) {
        CompanyServiceRunSnoc(old(ledger.companies), key, matched, s, force);
        found := true;
        var result := ledger.BuyCompanyService(companyName, s.cost, force);
        replies := replies + [PurchaseReply(s, result)];
        assert Matches(services[..i + 1], request) == matched + [s];
      } else {
        assert Matches(services[..i + 1], request) == matched;
      }
    }
    assert services[..|services|] == services;
    CompanyServiceRunValid(Tables(old(ledger.users), old(ledger.companies)), key, Matches(services, request), force);
  }
}
