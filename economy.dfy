/**
 * The coin ledger (cogs/economy.py): a `users` table and a `companies` table that
 * every balance change goes through, the per-minute voice accrual, the special-role
 * bonus and the debit of service purchases.
 *
 * Each mutating operation of the ledger is a method of `Ledger` whose new state is
 * given by an effect function on the tables; what the source promises is stated on
 * those functions and in the lemmas about them.
 */
module Economy {
  import opened Wrappers
  import opened Database
  import opened Text
  import Totals

  // ----- Effects on the users table -----

  /** A member's balance as the balance query reports it: 0 when there is no row. */
  function BalanceOf(users: map<MemberId, User>, id: MemberId): int
  {
    if id in users then users[id].balance else 0
  }

  /** `add_to_balance`: credit an existing row, or create one holding `amount`. */
  function Added(users: map<MemberId, User>, id: MemberId, amount: int): (r: map<MemberId, User>)
    ensures r.Keys == users.Keys + {id}
    ensures r[id].balance == BalanceOf(users, id) + amount
    ensures id in users ==> r[id] == users[id].(balance := r[id].balance)
    ensures id !in users ==> r[id] == NewUser(amount)
    ensures forall k :: k in users && k != id ==> r[k] == users[k]
  {
    if id in users then users[id := users[id].(balance := users[id].balance + amount)]
    else users[id := NewUser(amount)]
  }

  /** `set_balance`: merge a row carrying only the balance. */
  function WithBalance(users: map<MemberId, User>, id: MemberId, amount: int): (r: map<MemberId, User>)
    ensures r.Keys == users.Keys + {id}
    ensures BalanceOf(r, id) == amount
    ensures id in users ==> r[id] == users[id].(balance := amount)
    ensures id !in users ==> r[id] == NewUser(amount)
    ensures forall k :: k in users && k != id ==> r[k] == users[k]
  {
    var row := if id in users then users[id] else NewUser(0);
    users[id := row.(balance := amount)]
  }

  /** `blacklist` / `remove_from_blacklist`: merge a row carrying only the flag. */
  function WithBlacklisted(users: map<MemberId, User>, id: MemberId, flag: bool): (r: map<MemberId, User>)
    ensures r.Keys == users.Keys + {id}
    ensures r[id].blacklisted == flag
    ensures id in users ==> r[id] == users[id].(blacklisted := flag)
    ensures id !in users ==> r[id] == NewUser(0).(blacklisted := flag)
    ensures forall k :: k in users && k != id ==> r[k] == users[k]
  {
    var row := if id in users then users[id] else NewUser(0);
    users[id := row.(blacklisted := flag)]
  }

  /** Two successive credits of the same member are one credit of their sum, whatever their signs. */
  lemma AddedTwice(users: map<MemberId, User>, id: MemberId, a: int, b: int)
    ensures Added(Added(users, id, a), id, b) == Added(users, id, a + b)
  {
    if id !in users {
      assert NewUser(a).(balance := a + b) == NewUser(a + b);
    }
  }

  /** Setting the blacklist flag again to the same value changes nothing. */
  lemma WithBlacklistedIdempotent(users: map<MemberId, User>, id: MemberId, flag: bool)
    ensures WithBlacklisted(WithBlacklisted(users, id, flag), id, flag) == WithBlacklisted(users, id, flag)
  {
  }

  /** `blacklist_role`: the flag merged for every member of the role, in order. */
  function BlacklistAll(users: map<MemberId, User>, members: seq<MemberId>): (r: map<MemberId, User>)
    ensures r.Keys == users.Keys + set m | m in members
    ensures forall m :: m in members ==> r[m].blacklisted
    ensures forall k :: k in users ==> r[k] == users[k].(blacklisted := r[k].blacklisted)
    ensures forall k :: k in r && k !in users ==> r[k] == NewUser(0).(blacklisted := true)
    ensures forall k :: k in users && k !in members ==> r[k] == users[k]
  {
    if members == [] then users
    else
      var last := members[|members| - 1];
      var prefix := members[..|members| - 1];
      assert members == prefix + [last];
      WithBlacklisted(BlacklistAll(users, prefix), last, true)
  }

  /** Flagging members changes no company reference, so the schema stays valid. */
  lemma BlacklistAllValid(users: map<MemberId, User>, companies: map<string, Company>, members: seq<MemberId>)
    requires Tables(users, companies).Valid()
    ensures Tables(BlacklistAll(users, members), companies).Valid()
  {
    var r := BlacklistAll(users, members);
    forall id | id in r && r[id].companyName.Some?
      ensures r[id].companyName.value in companies
    {
      if id in users {
        assert r[id].companyName == users[id].companyName;
      }
    }
  }

  /**
   * `payment` once it has found the sender able to pay: the receiver's row is
   * created with balance 0 if missing, then `amount` moves from sender to receiver.
   */
  function Transfer(users: map<MemberId, User>, sender: MemberId, receiver: MemberId, amount: int): (r: map<MemberId, User>)
    requires sender in users && sender != receiver
    ensures r.Keys == users.Keys + {receiver}
    ensures r[sender] == users[sender].(balance := users[sender].balance - amount)
    ensures r[receiver].balance == BalanceOf(users, receiver) + amount
    ensures receiver in users ==> r[receiver] == users[receiver].(balance := r[receiver].balance)
    ensures receiver !in users ==> r[receiver] == NewUser(amount)
    ensures r[sender].balance + r[receiver].balance == users[sender].balance + BalanceOf(users, receiver)
    ensures forall k :: k in users && k != sender && k != receiver ==> r[k] == users[k]
  {
    var withReceiver := if receiver in users then users else users[receiver := NewUser(0)];
    withReceiver[sender := users[sender].(balance := users[sender].balance - amount)]
                [receiver := withReceiver[receiver].(balance := withReceiver[receiver].balance + amount)]
  }

  /** Every member's balance, as an integer map. */
  function Balances(users: map<MemberId, User>): (b: map<MemberId, int>)
    ensures b.Keys == users.Keys
    ensures forall k :: k in users ==> b[k] == users[k].balance
  {
    map k | k in users :: users[k].balance
  }

  /** Every company's balance, as an integer map. */
  function CompanyBalances(companies: map<string, Company>): (b: map<string, int>)
    ensures b.Keys == companies.Keys
    ensures forall n :: n in companies ==> b[n] == companies[n].balance
  {
    map n | n in companies :: companies[n].balance
  }

  /** A payment neither creates nor destroys coins: the sum of all balances is kept. */
  lemma TransferConserves(users: map<MemberId, User>, sender: MemberId, receiver: MemberId, amount: int)
    requires sender in users && sender != receiver
    ensures Totals.Sum(Balances(Transfer(users, sender, receiver, amount))) == Totals.Sum(Balances(users))
  {
    var r := Transfer(users, sender, receiver, amount);
    var b := Balances(users);
    var b1 := b[sender := b[sender] - amount];
    var b2 := b1[receiver := BalanceOf(users, receiver) + amount];
    assert Balances(r) == b2;
    Totals.SumUpdate(b, sender, b[sender] - amount);
    Totals.SumUpdate(b1, receiver, BalanceOf(users, receiver) + amount);
  }

  /** The tables after `company_deposit` moved `amount` from a member into their company. */
  function Donate(t: Tables, sender: MemberId, amount: int): (r: Tables)
    requires sender in t.users && t.users[sender].companyName.Some?
    requires t.users[sender].companyName.value in t.companies
    ensures var row := t.users[sender];
            r.users == t.users[sender := row.(balance := row.balance - amount, donations := row.donations + amount)]
    ensures var name := t.users[sender].companyName.value;
            r.companies == t.companies[name := t.companies[name].(balance := t.companies[name].balance + amount)]
  {
    var row := t.users[sender];
    var name := row.companyName.value;
    Tables(t.users[sender := row.(balance := row.balance - amount, donations := row.donations + amount)],
           t.companies[name := t.companies[name].(balance := t.companies[name].balance + amount)])
  }

  /**
   * A deposit keeps the schema valid, raises the member's donations by exactly what
   * the company gains, and keeps the coins of members and companies together constant.
   */
  lemma DonateConserves(t: Tables, sender: MemberId, amount: int)
    requires t.Valid()
    requires sender in t.users && t.users[sender].companyName.Some?
    ensures t.users[sender].companyName.value in t.companies
    ensures var r := Donate(t, sender, amount);
            && r.Valid()
            && r.users[sender].donations - t.users[sender].donations
               == r.companies[t.users[sender].companyName.value].balance - t.companies[t.users[sender].companyName.value].balance
               == amount
            && Totals.Sum(Balances(r.users)) + Totals.Sum(CompanyBalances(r.companies))
               == Totals.Sum(Balances(t.users)) + Totals.Sum(CompanyBalances(t.companies))
  {
    var r := Donate(t, sender, amount);
    var name := t.users[sender].companyName.value;
    var b := Balances(t.users);
    var c := CompanyBalances(t.companies);
    assert Balances(r.users) == b[sender := b[sender] - amount];
    assert CompanyBalances(r.companies) == c[name := c[name] + amount];
    Totals.SumUpdate(b, sender, b[sender] - amount);
    Totals.SumUpdate(c, name, c[name] + amount);
  }

  // ----- Voice accrual -----

  datatype VoiceState = VoiceState(afk: bool, deaf: bool, mute: bool, selfDeaf: bool, selfMute: bool)

  /** A member connected to a voice channel, with the roles they hold. */
  datatype VoiceMember = VoiceMember(id: MemberId, roles: seq<RoleId>, voice: VoiceState)

  type VoiceChannel = seq<VoiceMember>

  datatype Guild = Guild(voiceChannels: seq<VoiceChannel>)

  /** Eligible for accrual: present, holding the accrual role, and neither muted nor deafened. */
  predicate IsEligible(m: VoiceMember, role: RoleId)
  {
    && !m.voice.afk
    && role in m.roles
    && !(m.voice.deaf || m.voice.mute || m.voice.selfDeaf || m.voice.selfMute)
  }

  /** The ids of the eligible members of a channel, in channel order. */
  function EligibleIds(members: VoiceChannel, role: RoleId): (r: seq<MemberId>)
    ensures |r| <= |members|
    ensures forall x :: x in r <==> exists i :: 0 <= i < |members| && members[i].id == x && IsEligible(members[i], role)
  {
    if members == [] then []
    else
      var prefix := members[..|members| - 1];
      var last := members[|members| - 1];
      assert forall i :: 0 <= i < |prefix| ==> prefix[i] == members[i];
      EligibleIds(prefix, role) + (if IsEligible(last, role) then [last.id] else [])
  }

  /** One more member extends the eligible ids by its id, if it is eligible. */
  lemma EligibleIdsSnoc(members: VoiceChannel, role: RoleId, n: nat)
    requires n < |members|
    ensures EligibleIds(members[..n + 1], role) ==
            EligibleIds(members[..n], role) + (if IsEligible(members[n], role) then [members[n].id] else [])
  {
    assert members[..n + 1][..n] == members[..n];
  }

  /** The eligible positions among the first `n` members. */
  ghost function EligiblePositions(members: VoiceChannel, role: RoleId, n: nat): set<nat>
    requires n <= |members|
  {
    set i: nat | i < n && IsEligible(members[i], role)
  }

  /** The eligible positions among the first `n` members that hold `x`. */
  ghost function EligiblePositionsOf(members: VoiceChannel, role: RoleId, n: nat, x: MemberId): set<nat>
    requires n <= |members|
  {
    set i: nat | i < n && members[i].id == x && IsEligible(members[i], role)
  }

  lemma EligiblePositionsSnoc(members: VoiceChannel, role: RoleId, n: nat)
    requires n < |members|
    ensures |EligiblePositions(members, role, n + 1)| ==
            |EligiblePositions(members, role, n)| + (if IsEligible(members[n], role) then 1 else 0)
  {
    var before := EligiblePositions(members, role, n);
    assert n !in before;
    if IsEligible(members[n], role) {
      assert EligiblePositions(members, role, n + 1) == before + {n};
    } else {
      assert EligiblePositions(members, role, n + 1) == before;
    }
  }

  lemma EligiblePositionsOfSnoc(members: VoiceChannel, role: RoleId, n: nat, x: MemberId)
    requires n < |members|
    ensures |EligiblePositionsOf(members, role, n + 1, x)| ==
            |EligiblePositionsOf(members, role, n, x)| + (if IsEligible(members[n], role) && members[n].id == x then 1 else 0)
  {
    var before := EligiblePositionsOf(members, role, n, x);
    assert n !in before;
    if IsEligible(members[n], role) && members[n].id == x {
      assert EligiblePositionsOf(members, role, n + 1, x) == before + {n};
    } else {
      assert EligiblePositionsOf(members, role, n + 1, x) == before;
    }
  }

  /** Among the first `n` members there are as many eligible ids as eligible positions. */
  lemma {:induction false} EligibleIdsLengthPrefix(members: VoiceChannel, role: RoleId, n: nat)
    requires n <= |members|
    ensures |EligibleIds(members[..n], role)| == |EligiblePositions(members, role, n)|
    decreases n
  {
    if n == 0 {
      assert EligiblePositions(members, role, n) == {};
    } else {
      EligibleIdsLengthPrefix(members, role, n - 1);
      EligibleIdsSnoc(members, role, n - 1);
      EligiblePositionsSnoc(members, role, n - 1);
    }
  }

  /** Among the first `n` members, each id is listed once per eligible position it holds. */
  lemma {:induction false} EligibleIdsMultiplicityPrefix(members: VoiceChannel, role: RoleId, n: nat, x: MemberId)
    requires n <= |members|
    ensures multiset(EligibleIds(members[..n], role))[x] == |EligiblePositionsOf(members, role, n, x)|
    decreases n
  {
    if n == 0 {
      assert EligiblePositionsOf(members, role, n, x) == {};
    } else {
      EligibleIdsMultiplicityPrefix(members, role, n - 1, x);
      EligibleIdsSnoc(members, role, n - 1);
      EligiblePositionsOfSnoc(members, role, n - 1, x);
      var prev := EligibleIds(members[..n - 1], role);
      var added := if IsEligible(members[n - 1], role) then [members[n - 1].id] else [];
      assert multiset(prev + added) == multiset(prev) + multiset(added);
    }
  }

  /** `unmuted` holds exactly one entry per eligible member of the channel. */
  lemma EligibleIdsCount(members: VoiceChannel, role: RoleId, x: MemberId)
    ensures |EligibleIds(members, role)| == |set i | 0 <= i < |members| && IsEligible(members[i], role)|
    ensures multiset(EligibleIds(members, role))[x] ==
            |set i | 0 <= i < |members| && members[i].id == x && IsEligible(members[i], role)|
  {
    EligibleIdsLengthPrefix(members, role, |members|);
    EligibleIdsMultiplicityPrefix(members, role, |members|, x);
    assert members[..|members|] == members;
    assert EligiblePositions(members, role, |members|) == set i | 0 <= i < |members| && IsEligible(members[i], role);
    assert EligiblePositionsOf(members, role, |members|, x) ==
           set i | 0 <= i < |members| && members[i].id == x && IsEligible(members[i], role);
  }

  /** The tick's `unmuted` list: the eligible members of a channel, gathered in order. */
  method Unmuted(members: VoiceChannel, role: RoleId) returns (unmuted: seq<MemberId>)
    ensures unmuted == EligibleIds(members, role)
  {
    unmuted := [];
    for m := 0 to |members|
      invariant unmuted == EligibleIds(members[..m], role)
    {
      assert members[..m + 1][..m] == members[..m];
      var v := members[m].voice;
      if !v.afk && role in members[m].roles && !(v.deaf || v.mute || v.selfDeaf || v.selfMute) {
        unmuted := unmuted + [members[m].id];
      }
    }
    assert members[..|members|] == members;
  }

  /** Who one channel credits in one tick: its eligible members, when there are at least two. */
  function ChannelCredits(members: VoiceChannel, role: RoleId): (r: seq<MemberId>)
    ensures r == [] || (|r| >= 2 && r == EligibleIds(members, role))
    ensures |EligibleIds(members, role)| >= 2 ==> r == EligibleIds(members, role)
  {
    if |members| < 2 then []
    else
      var unmuted := EligibleIds(members, role);
      if |unmuted| > 1 then unmuted else []
  }

  /** A channel credits anyone exactly when at least two of its members are eligible. */
  lemma ChannelCreditsThreshold(members: VoiceChannel, role: RoleId)
    ensures ChannelCredits(members, role) != [] <==>
            |set i | 0 <= i < |members| && IsEligible(members[i], role)| >= 2
  {
    EligibleIdsCount(members, role, 0);
  }

  /** The lists `f` gives for the elements of `xs`, joined in order. */
  function Flatten<T>(xs: seq<T>, f: T -> seq<MemberId>): seq<MemberId>
  {
    if xs == [] then [] else Flatten(xs[..|xs| - 1], f) + f(xs[|xs| - 1])
  }

  lemma {:induction false} FlattenMembers<T>(xs: seq<T>, f: T -> seq<MemberId>, x: MemberId)
    ensures x in Flatten(xs, f) <==> exists i :: 0 <= i < |xs| && x in f(xs[i])
    decreases |xs|
  {
    if xs != [] {
      var prefix := xs[..|xs| - 1];
      FlattenMembers(prefix, f, x);
      assert forall i :: 0 <= i < |prefix| ==> prefix[i] == xs[i];
    }
  }

  /** Everyone one guild credits, channel after channel. */
  function GuildCredits(channels: seq<VoiceChannel>, role: RoleId): (r: seq<MemberId>)
    ensures forall x :: x in r <==> exists c :: 0 <= c < |channels| && x in ChannelCredits(channels[c], role)
  {
    var f := (members: VoiceChannel) => ChannelCredits(members, role);
    assert forall x :: x in Flatten(channels, f) <==> exists c :: 0 <= c < |channels| && x in f(channels[c]) by {
      forall x { FlattenMembers(channels, f, x); }
    }
    Flatten(channels, f)
  }

  /** Everyone one tick credits, guild after guild. */
  function TickCredits(guilds: seq<Guild>, role: RoleId): (r: seq<MemberId>)
    ensures forall x :: x in r <==> exists g :: 0 <= g < |guilds| && x in GuildCredits(guilds[g].voiceChannels, role)
  {
    var f := (guild: Guild) => GuildCredits(guild.voiceChannels, role);
    assert forall x :: x in Flatten(guilds, f) <==> exists g :: 0 <= g < |guilds| && x in f(guilds[g]) by {
      forall x { FlattenMembers(guilds, f, x); }
    }
    Flatten(guilds, f)
  }

  lemma GuildCreditsSnoc(channels: seq<VoiceChannel>, role: RoleId, c: nat)
    requires c < |channels|
    ensures GuildCredits(channels[..c + 1], role) == GuildCredits(channels[..c], role) + ChannelCredits(channels[c], role)
  {
    assert channels[..c + 1][..c] == channels[..c];
  }

  lemma TickCreditsSnoc(guilds: seq<Guild>, role: RoleId, g: nat)
    requires g < |guilds|
    ensures TickCredits(guilds[..g + 1], role) == TickCredits(guilds[..g], role) + GuildCredits(guilds[g].voiceChannels, role)
  {
    assert guilds[..g + 1][..g] == guilds[..g];
  }

  /** The tick's update of one member: blacklisted rows are left alone. */
  function Credit(users: map<MemberId, User>, id: MemberId, gain: int): (r: map<MemberId, User>)
    ensures id in users && users[id].blacklisted ==> r == users
    ensures !(id in users && users[id].blacklisted) ==> r == Added(users, id, gain)
  {
    if id in users then
      if !users[id].blacklisted then users[id := users[id].(balance := gain + users[id].balance)] else users
    else users[id := NewUser(gain)]
  }

  function CreditAll(users: map<MemberId, User>, ids: seq<MemberId>, gain: int): (r: map<MemberId, User>)
    ensures forall x {:trigger x in r} :: x in r <==> x in users || x in ids
    decreases |ids|
  {
    if ids == [] then users else CreditAll(Credit(users, ids[0], gain), ids[1..], gain)
  }

  /** Crediting one list and then another is crediting their concatenation. */
  lemma {:induction false} CreditAllConcat(users: map<MemberId, User>, a: seq<MemberId>, b: seq<MemberId>, gain: int)
    ensures CreditAll(users, a + b, gain) == CreditAll(CreditAll(users, a, gain), b, gain)
    decreases |a|
  {
    if a != [] {
      assert (a + b)[0] == a[0] && (a + b)[1..] == a[1..] + b;
      CreditAllConcat(Credit(users, a[0], gain), a[1..], b, gain);
    } else {
      assert a + b == b;
    }
  }

  /**
   * What a list of credits does to one member, who occurs `n` times in it:
   * a blacklisted row is unchanged, any other row gains `n * gain`, and a member
   * without a row gets one holding `n * gain` when `n > 0`. Accrual is additive.
   */
  lemma {:induction false} CreditAllAt(users: map<MemberId, User>, ids: seq<MemberId>, gain: int, x: MemberId)
    ensures var r := CreditAll(users, ids, gain);
            var n := Occurrences(ids, x);
            && (x in r <==> x in users || n > 0)
            && (x in users && users[x].blacklisted ==> r[x] == users[x])
            && (x in users && !users[x].blacklisted ==> r[x] == users[x].(balance := users[x].balance + n * gain))
            && (x !in users && n > 0 ==> r[x] == NewUser(n * gain))
    decreases |ids|
  {
    if ids != [] {
      var u1 := Credit(users, ids[0], gain);
      CreditAllAt(u1, ids[1..], gain, x);
      var m := Occurrences(ids[1..], x);
      if ids[0] == x {
        assert (m + 1) * gain == gain + m * gain;
      }
    }
  }

  /** How many times `x` occurs in `ids`. */
  function Occurrences(ids: seq<MemberId>, x: MemberId): (n: nat)
    ensures n == multiset(ids)[x]
    decreases |ids|
  {
    if ids == [] then 0
    else
      assert ids == [ids[0]] + ids[1..];
      (if ids[0] == x then 1 else 0) + Occurrences(ids[1..], x)
  }

  /** Accrual only adds rows without a company, so the schema stays valid. */
  lemma CreditAllValid(users: map<MemberId, User>, companies: map<string, Company>, ids: seq<MemberId>, gain: int)
    requires Tables(users, companies).Valid()
    ensures Tables(CreditAll(users, ids, gain), companies).Valid()
  {
    forall x | x in CreditAll(users, ids, gain) {
      CreditAllAt(users, ids, gain, x);
    }
  }

  /**
   * Who one tick credits: the members that some voice channel of some guild
   * credits, that is, eligible members of channels with two or more eligible members.
   */
  lemma TickCreditsMembers(guilds: seq<Guild>, role: RoleId, x: MemberId)
    ensures x in TickCredits(guilds, role) <==>
            exists g, c :: 0 <= g < |guilds| && 0 <= c < |guilds[g].voiceChannels|
                           && x in ChannelCredits(guilds[g].voiceChannels[c], role)
  {
  }

  // ----- Special roles -----

  /** The position of the first role of `after` that `before` lacks, or |after| if none. */
  function FirstNewRoleIndex(before: seq<RoleId>, after: seq<RoleId>, from: nat): (i: nat)
    requires from <= |after|
    ensures from <= i <= |after|
    ensures forall j :: from <= j < i ==> after[j] in before
    ensures i < |after| ==> after[i] !in before
    decreases |after| - from
  {
    if from == |after| then from
    else if after[from] !in before then from
    else FirstNewRoleIndex(before, after, from + 1)
  }

  /**
   * `next(role for role in after.roles if role not in before.roles)`: the first
   * gained role, or None where Python would raise StopIteration.
   */
  function NewRole(before: seq<RoleId>, after: seq<RoleId>): (r: Option<RoleId>)
    ensures r.None? <==> forall x :: x in after ==> x in before
    ensures r.Some? ==> r.value !in before &&
                        exists i :: 0 <= i < |after| && after[i] == r.value && forall j :: 0 <= j < i ==> after[j] in before
  {
    var i := FirstNewRoleIndex(before, after, 0);
    if i < |after| then
      var role := after[i];
      assert role in after && role !in before;
      Some(role)
    else
      assert forall x :: x in after ==> x in before by {
        forall x | x in after ensures x in before {
          var j :| 0 <= j < |after| && after[j] == x;
        }
      }
      None
  }

  /**
   * `on_member_update`: a member whose role list grew gets the bonus configured
   * for the first role they gained, and only for that one; nothing otherwise.
   */
  function SpecialBonus(before: seq<RoleId>, after: seq<RoleId>, specialRoles: map<RoleId, int>): (r: Option<int>)
    ensures r.Some? ==> |before| < |after|
    ensures r.Some? <==> |before| < |after| && NewRole(before, after).Some? && NewRole(before, after).value in specialRoles
    ensures r.Some? ==> r.value == specialRoles[NewRole(before, after).value]
  {
    if |before| < |after| then
      match NewRole(before, after)
      case Some(role) => if role in specialRoles then Some(specialRoles[role]) else None
      case None => None
    else None
  }

  ghost function Elements(s: seq<RoleId>): set<RoleId>
  {
    set x | x in s
  }

  ghost predicate Distinct(s: seq<RoleId>)
  {
    forall i, j :: 0 <= i < j < |s| ==> s[i] != s[j]
  }

  lemma {:induction false} ElementsCard(s: seq<RoleId>)
    ensures |Elements(s)| <= |s|
    ensures Distinct(s) ==> |Elements(s)| == |s|
    decreases |s|
  {
    if s != [] {
      var prefix := s[..|s| - 1];
      var last := s[|s| - 1];
      ElementsCard(prefix);
      assert Elements(s) == Elements(prefix) + {last};
      if Distinct(s) {
        assert last !in Elements(prefix);
        assert Distinct(prefix) by {
          forall i, j | 0 <= i < j < |prefix| ensures prefix[i] != prefix[j] {
            assert prefix[i] == s[i] && prefix[j] == s[j];
          }
        }
      }
    }
  }

  /**
   * Role lists hold each role once, so a list that grew has a gained role:
   * the search for it cannot run out.
   */
  lemma GrownRolesHaveNewRole(before: seq<RoleId>, after: seq<RoleId>)
    requires Distinct(after)
    requires |before| < |after|
    ensures NewRole(before, after).Some?
  {
    if NewRole(before, after).None? {
      SubsetCard(Elements(after), Elements(before));
      ElementsCard(before);
      ElementsCard(after);
    }
  }

  lemma SubsetCard(a: set<RoleId>, b: set<RoleId>)
    requires a <= b
    ensures |a| <= |b|
  {
    assert b == a + (b - a);
  }

  // ----- Service purchases -----

  /**
   * The debit decision of `buy_service` against the buyer's row, with the value
   * it returns: -1 without a row or, unless forced, when the balance is below the
   * cost; a forced purchase is free; otherwise the cost is debited.
   */
  function UserPurchase(users: map<MemberId, User>, id: MemberId, cost: int, force: bool): (r: (map<MemberId, User>, int))
    ensures id !in users ==> r == (users, -1)
    ensures id in users && !force && users[id].balance < cost ==> r == (users, -1)
    ensures id in users && force ==> r == (users, users[id].balance)
    ensures id in users && !force && users[id].balance >= cost ==>
              r.0 == Added(users, id, -cost) && r.1 == r.0[id].balance && r.1 >= 0
  {
    if id in users && (force || users[id].balance >= cost) then
      var newAmount := users[id].balance;
      if !force then (users[id := users[id].(balance := newAmount - cost)], newAmount - cost)
      else (users, newAmount)
    else (users, -1)
  }

  /**
   * `buy_company_service`'s debit decision: the same rule against the company
   * row found under `key`, the lower-cased company name the query filters on.
   */
  function CompanyPurchase(companies: map<string, Company>, key: string, cost: int, force: bool): (r: (map<string, Company>, int))
    ensures key !in companies ==> r == (companies, -1)
    ensures key in companies && !force && companies[key].balance < cost ==> r == (companies, -1)
    ensures key in companies && force ==> r == (companies, companies[key].balance)
    ensures key in companies && !force && companies[key].balance >= cost ==>
              r.1 == companies[key].balance - cost && r.1 >= 0
              && r.0 == companies[key := companies[key].(balance := r.1)]
  {
    if key in companies && (force || companies[key].balance >= cost) then
      var newAmount := companies[key].balance;
      if !force then (companies[key := companies[key].(balance := newAmount - cost)], newAmount - cost)
      else (companies, newAmount)
    else (companies, -1)
  }

  /**
   * The returned -1 is the only failure signal, and a forced purchase returns the
   * balance unchanged: a member holding exactly -1 who is given a service for free
   * gets the same answer as one refused for lack of coins.
   */
  lemma ForcedPurchaseLooksRefused(users: map<MemberId, User>, id: MemberId, cost: int)
    requires id in users && users[id].balance == -1
    ensures UserPurchase(users, id, cost, true).1 == UserPurchase(map[], id, cost, false).1 == -1
  {
  }

  // ----- The ledger -----

  class Ledger {
    var users: map<MemberId, User>
    var companies: map<string, Company>

    ghost predicate Valid()
      reads this
    {
      Tables(users, companies).Valid()
    }

    /** An empty users table beside companies created elsewhere. */
    constructor (existing: map<string, Company>)
      requires Tables(map[], existing).Valid()
      ensures Valid() && users == map[] && companies == existing
    {
      users := map[];
      companies := existing;
    }

    /** `get_balance`: (balance, donations), or (0, 0) for a member without a row. */
    function GetBalance(id: MemberId): (r: (int, int))
      reads this
      ensures id !in users ==> r == (0, 0)
      ensures id in users ==> r == (users[id].balance, users[id].donations)
      ensures r.0 == BalanceOf(users, id)
    {
      if id in users then (users[id].balance, users[id].donations) else (0, 0)
    }

    /** `get_company_balance`: the balance of the company with exactly this name, or 0. */
    function GetCompanyBalance(name: string): (r: int)
      reads this
      ensures name !in companies ==> r == 0
      ensures name in companies ==> r == companies[name].balance
    {
      if name in companies then companies[name].balance else 0
    }

    /** `is_blacklisted`: false for a member without a row. */
    function IsBlacklisted(id: MemberId): (r: bool)
      reads this
      ensures r <==> id in users && users[id].blacklisted
    {
      id in users && users[id].blacklisted
    }

    method AddToBalance(id: MemberId, amount: int) returns (newAmount: int)
      requires Valid()
      modifies this
      ensures Valid()
      ensures users == Added(old(users), id, amount) && companies == old(companies)
      ensures newAmount == BalanceOf(old(users), id) + amount == users[id].balance
    {
      newAmount := amount;
      if id in users {
        newAmount := newAmount + users[id].balance;
        users := users[id := users[id].(balance := newAmount)];
      } else {
        users := users[id := NewUser(newAmount)];
      }
    }

    method SetBalance(id: MemberId, amount: int)
      requires Valid()
      modifies this
      ensures Valid()
      ensures users == WithBalance(old(users), id, amount) && companies == old(companies)
    {
      users := WithBalance(users, id, amount);
    }

    /** `set_company_balance`: None, and no change, when no company has exactly this name. */
    method SetCompanyBalance(name: string, amount: int) returns (r: Option<int>)
      requires Valid()
      modifies this
      ensures Valid() && users == old(users)
      ensures name !in old(companies) ==> r == None && companies == old(companies)
      ensures name in old(companies) ==>
                r == Some(amount) && companies == old(companies)[name := old(companies)[name].(balance := amount)]
    {
      if name in companies {
        companies := companies[name := companies[name].(balance := amount)];
      } else {
        return None;
      }
      return Some(amount);
    }

    method Blacklist(id: MemberId)
      requires Valid()
      modifies this
      ensures Valid()
      ensures users == WithBlacklisted(old(users), id, true) && companies == old(companies)
    {
      users := WithBlacklisted(users, id, true);
    }

    method RemoveFromBlacklist(id: MemberId)
      requires Valid()
      modifies this
      ensures Valid()
      ensures users == WithBlacklisted(old(users), id, false) && companies == old(companies)
    {
      users := WithBlacklisted(users, id, false);
    }

    method BlacklistRole(members: seq<MemberId>)
      requires Valid()
      modifies this
      ensures Valid()
      ensures users == BlacklistAll(old(users), members) && companies == old(companies)
    {
      for i := 0 to |members|
        invariant companies == old(companies)
        invariant users == BlacklistAll(old(users), members[..i])
      {
        assert members[..i + 1][..i] == members[..i];
        users := WithBlacklisted(users, members[i], true);
      }
      assert members[..|members|] == members;
      BlacklistAllValid(old(users), companies, members);
    }

    /**
     * `payment`: -1 and no change when the sender has no row or less than `amount`
     * (paying oneself included); otherwise the transfer, returning the sender's new
     * balance. A sender able to pay themselves is excluded: the source then adds a
     * second row under the same id, which cannot be committed.
     */
    method Payment(sender: MemberId, receiver: MemberId, amount: int) returns (r: int)
      requires Valid()
      requires sender in users && users[sender].balance >= amount ==> sender != receiver
      modifies this
      ensures Valid() && companies == old(companies)
      ensures !(sender in old(users) && old(users)[sender].balance >= amount) ==> r == -1 && users == old(users)
      ensures sender in old(users) && old(users)[sender].balance >= amount ==>
                users == Transfer(old(users), sender, receiver, amount) && r == users[sender].balance && r >= 0
    {
      if sender !in users {
        return -1;
      }
      var receiverRow := if receiver in users then users[receiver] else NewUser(0);
      if users[sender].balance < amount {
        return -1;
      }
      var senderRow := users[sender].(balance := users[sender].balance - amount);
      receiverRow := receiverRow.(balance := receiverRow.balance + amount);
      users := users[sender := senderRow][receiver := receiverRow];
      r := senderRow.balance;
    }

    /**
     * `company_deposit`: -1 and no change when the sender has no row or less than
     * `amount`; otherwise the sender's balance, donations and company move together.
     * A sender able to pay must belong to a company, as the command checks first.
     */
    method CompanyDeposit(sender: MemberId, amount: int) returns (r: int)
      requires Valid()
      requires sender in users && users[sender].balance >= amount ==> users[sender].companyName.Some?
      modifies this
      ensures Valid()
      ensures !(sender in old(users) && old(users)[sender].balance >= amount) ==>
                r == -1 && users == old(users) && companies == old(companies)
      ensures sender in old(users) && old(users)[sender].balance >= amount ==>
                Tables(users, companies) == Donate(Tables(old(users), old(companies)), sender, amount)
                && r == users[sender].balance && r >= 0
    {
      if sender in users {
        var row := users[sender];
        if row.balance >= amount {
          var name := row.companyName.value;
          companies := companies[name := companies[name].(balance := companies[name].balance + amount)];
          row := row.(balance := row.balance - amount, donations := row.donations + amount);
          users := users[sender := row];
          return row.balance;
        }
      }
      return -1;
    }

    /**
     * One run of `coins_tick`: every voice channel of every guild, in order; the
     * credits of the whole pass are committed together.
     */
    method CoinsTick(guilds: seq<Guild>, role: RoleId, coinsGain: int)
      requires Valid()
      modifies this
      ensures Valid() && companies == old(companies)
      ensures users == CreditAll(old(users), TickCredits(guilds, role), coinsGain)
    {
      for g := 0 to |guilds|
        invariant companies == old(companies)
        invariant users == CreditAll(old(users), TickCredits(guilds[..g], role), coinsGain)
      {
        CreditGuild(guilds[g].voiceChannels, role, coinsGain);
        CreditAllConcat(old(users), TickCredits(guilds[..g], role), GuildCredits(guilds[g].voiceChannels, role), coinsGain);
        TickCreditsSnoc(guilds, role, g);
      }
      assert guilds[..|guilds|] == guilds;
      CreditAllValid(old(users), companies, TickCredits(guilds, role), coinsGain);
    }

    /** The tick's loop over the voice channels of one guild. */
    method CreditGuild(channels: seq<VoiceChannel>, role: RoleId, coinsGain: int)
      modifies this
      ensures companies == old(companies)
      ensures users == CreditAll(old(users), GuildCredits(channels, role), coinsGain)
    {
      assert GuildCredits(channels[..0], role) == [];
      for c := 0 to |channels|
        invariant companies == old(companies)
        invariant users == CreditAll(old(users), GuildCredits(channels[..c], role), coinsGain)
      {
        CreditChannel(channels[c], role, coinsGain);
        CreditAllConcat(old(users), GuildCredits(channels[..c], role), ChannelCredits(channels[c], role), coinsGain);
        GuildCreditsSnoc(channels, role, c);
      }
      assert channels[..|channels|] == channels;
    }

    /** The body of the tick's channel loop: skip small channels, then credit the eligible. */
    method CreditChannel(members: VoiceChannel, role: RoleId, coinsGain: int)
      modifies this
      ensures companies == old(companies)
      ensures users == CreditAll(old(users), ChannelCredits(members, role), coinsGain)
    {
      if |members| < 2 {
        return;
      }
      var unmuted := Unmuted(members, role);
      if |unmuted| > 1 {
        CreditEach(unmuted, coinsGain);
      }
    }

    /** The tick's credit loop over the eligible members of one channel. */
    method CreditEach(ids: seq<MemberId>, coinsGain: int)
      modifies this
      ensures companies == old(companies)
      ensures users == CreditAll(old(users), ids, coinsGain)
    {
      for k := 0 to |ids|
        invariant companies == old(companies)
        invariant users == CreditAll(old(users), ids[..k], coinsGain)
      {
        var id := ids[k];
        CreditAllConcat(old(users), ids[..k], [id], coinsGain);
        assert ids[..k + 1] == ids[..k] + [id];
        if id in users {
          if !users[id].blacklisted {
            users := users[id := users[id].(balance := coinsGain + users[id].balance)];
          }
        } else {
          users := users[id := NewUser(coinsGain)];
        }
      }
      assert ids[..|ids|] == ids;
    }

    /** `on_member_update` for the member whose roles went from `before` to `after`. */
    method OnMemberUpdate(id: MemberId, before: seq<RoleId>, after: seq<RoleId>, specialRoles: map<RoleId, int>)
      requires Valid()
      modifies this
      ensures Valid() && companies == old(companies)
      ensures SpecialBonus(before, after, specialRoles).None? ==> users == old(users)
      ensures SpecialBonus(before, after, specialRoles).Some? ==>
                users == Added(old(users), id, SpecialBonus(before, after, specialRoles).value)
    {
      if |before| < |after| {
        var newRole := NewRole(before, after);
        if newRole.Some? && newRole.value in specialRoles {
          var _ := AddToBalance(id, specialRoles[newRole.value]);
        }
      }
    }

    /** The ledger part of `buy_service`: the debit decision and its returned value. */
    method BuyService(id: MemberId, cost: int, force: bool) returns (r: int)
      requires Valid()
      modifies this
      ensures Valid() && companies == old(companies)
      ensures (users, r) == UserPurchase(old(users), id, cost, force)
    {
      if id in users {
        if force || users[id].balance >= cost {
          var newAmount := users[id].balance;
          if !force {
            newAmount := users[id].balance - cost;
            users := users[id := users[id].(balance := newAmount)];
          }
          return newAmount;
        }
      }
      return -1;
    }

    /** The ledger part of `buy_company_service`, looking the company up by its lower-cased name. */
    method BuyCompanyService(companyName: string, cost: int, force: bool) returns (r: int)
      modifies this
      ensures users == old(users)
      ensures (companies, r) == CompanyPurchase(old(companies), Lower(companyName), cost, force)
    {
      var key := Lower(companyName);
      if key in companies {
        var buyer := companies[key];
        if force || buyer.balance >= cost {
          var newAmount := buyer.balance;
          if !force {
            newAmount := buyer.balance - cost;
            companies := companies[key := buyer.(balance := newAmount)];
          }
          return newAmount;
        }
      }
      return -1;
    }
  }
}
