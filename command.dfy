/**
 * The /itemsbgs command (ItemsBGSCommand): subcommand dispatch, the give
 * subcommand with its amount parsing and clamping, and tab completion.
 */
module Command {
  import opened Common
  import opened Registry
  import opened Inventory

  const MIN_INT: int := -0x8000_0000
  const MAX_INT: int := 0x7fff_ffff
  const MAX_GIVE: int := 64

  // ---------------------------------------------------------------------
  // Integer.parseInt, restricted to ASCII digits
  // ---------------------------------------------------------------------

  predicate IsDigit(c: char)
  {
    '0' <= c <= '9'
  }

  predicate AllDigits(s: string)
  {
    forall i :: 0 <= i < |s| ==> IsDigit(s[i])
  }

  /** The value of a string of decimal digits, most significant first. */
  function DigitsValue(s: string): nat
    requires AllDigits(s)
    decreases |s|
  {
    if s == [] then 0 else 10 * DigitsValue(s[..|s| - 1]) + (s[|s| - 1] as int - '0' as int)
  }

  /** The decimal digits of a natural number, without leading zeros. */
  function NatToString(n: nat): (s: string)
    ensures |s| >= 1 && AllDigits(s)
    decreases n
  {
    if n < 10 then [('0' as int + n) as char]
    else NatToString(n / 10) + [('0' as int + n % 10) as char]
  }

  /** Integer.toString for the values the command prints. */
  function IntToString(n: int): string
  {
    if n < 0 then "-" + NatToString(-n) else NatToString(n)
  }

  lemma {:induction false} DigitsRoundTrip(n: nat)
    ensures DigitsValue(NatToString(n)) == n
    decreases n
  {
    if n >= 10 {
      var s := NatToString(n);
      assert s[..|s| - 1] == NatToString(n / 10);
      DigitsRoundTrip(n / 10);
    }
  }

  /**
   * Integer.parseInt: an optional '+' or '-', then at least one digit, with
   * a value inside the 32-bit range; anything else is a NumberFormatException,
   * here None.
   */
  function ParseInt(s: string): (r: Option<int>)
    ensures r.Some? ==> MIN_INT <= r.value <= MAX_INT
    ensures r.Some? ==> |s| > 0 && var digits := if s[0] == '-' || s[0] == '+' then s[1..] else s;
                                  |digits| > 0 && AllDigits(digits)
    ensures |s| == 0 ==> r.None?
    ensures |s| > 0 ==>
              var digits := if s[0] == '-' || s[0] == '+' then s[1..] else s;
              |digits| > 0 && AllDigits(digits) ==>
                var v := if s[0] == '-' then -(DigitsValue(digits) as int) else DigitsValue(digits) as int;
                (r.Some? <==> MIN_INT <= v <= MAX_INT) && (r.Some? ==> r.value == v)
  {
    if |s| == 0 then None
    else
      var digits := if s[0] == '-' || s[0] == '+' then s[1..] else s;
      if |digits| == 0 || !AllDigits(digits) then None
      else
        var magnitude: int := DigitsValue(digits);
        var v := if s[0] == '-' then -magnitude else magnitude;
        if MIN_INT <= v <= MAX_INT then Some(v) else None
  }

  /** Every 32-bit integer, written out in decimal, parses back to itself. */
  lemma ParseIntRoundTrip(n: int)
    requires MIN_INT <= n <= MAX_INT
    ensures ParseInt(IntToString(n)) == Some(n)
  {
    var s := IntToString(n);
    if n < 0 {
      DigitsRoundTrip(-n);
      assert s[0] == '-' && s[1..] == NatToString(-n);
    } else {
      DigitsRoundTrip(n);
      assert s == NatToString(n) && IsDigit(s[0]);
    }
  }

  /** Math.max(1, Math.min(64, n)). */
  function Clamp(n: int): (r: int)
    ensures 1 <= r <= MAX_GIVE
    ensures 1 <= n <= MAX_GIVE ==> r == n
    ensures n < 1 ==> r == 1
    ensures n > MAX_GIVE ==> r == MAX_GIVE
  {
    if n < 1 then 1 else if n > MAX_GIVE then MAX_GIVE else n
  }

  /**
   * The amount the give subcommand hands out, and whether it warned about
   * the amount argument: 1 without a fourth argument, the clamped value of a
   * parsable one, and 1 with a warning for one that does not parse.
   */
  function GiveAmount(args: seq<string>): (r: (int, bool))
    ensures 1 <= r.0 <= MAX_GIVE
    ensures |args| < 4 ==> r == (1, false)
    ensures r.1 <==> |args| >= 4 && ParseInt(args[3]).None?
    ensures r.1 ==> r.0 == 1
    ensures |args| >= 4 && ParseInt(args[3]).Some? ==> r.0 == Clamp(ParseInt(args[3]).value)
  {
    if |args| < 4 then (1, false)
    else
      match ParseInt(args[3])
      case None => (1, true)
      case Some(n) => (Clamp(n), false)
  }

  lemma NonNumericAmountDefaultsToOne()
    ensures GiveAmount(["give", "Steve", "grenade", "abc"]) == (1, true)
  {
  }

  lemma LargeAmountClampedTo64()
    ensures GiveAmount(["give", "Steve", "grenade", "100"]) == (64, false)
  {
    assert ParseInt("100") == Some(100) by {
      assert DigitsValue("1") == 1;
      assert "100"[..2] == "10" && "10"[..1] == "1";
    }
  }

  // ---------------------------------------------------------------------
  // onCommand and handleGiveCommand
  // ---------------------------------------------------------------------

  /** The messages the command sends; Received goes to the target player, all others to the sender. */
  datatype Reply =
    | UsageHelp(available: set<string>)
    | UnknownSubcommand
    | NoPermission
    | GiveUsage
    | PlayerNotFound(name: string)
    | InvalidAmount
    | Received(amount: int, id: string)
    | Gave(amount: int, id: string)
    | InvalidItemId(id: string, available: set<string>)

  /** What the command does: the messages, in order, and the stack added to the target's inventory. */
  datatype CommandPlan = CommandPlan(replies: seq<Reply>, grant: Option<Stack>)

  /**
   * handleGiveCommand's plan. `canGive` is the sender's permission,
   * `targetOnline` whether a player of the name in the second argument is
   * online, `senderIsTarget` whether that player is the sender.
   */
  function GivePlan(args: seq<string>, canGive: bool, targetOnline: bool, senderIsTarget: bool,
                    manager: ItemManager): (p: CommandPlan)
    reads manager
    requires manager.Valid()
    ensures p.grant.Some? <==> canGive && |args| >= 3 && targetOnline && ToLower(args[2]) in manager.GetRegisteredIds()
    ensures p.grant.Some? ==> p.grant == manager.CreateItemStack(ToLower(args[2]), GiveAmount(args).0)
    ensures p.grant.Some? ==> 1 <= p.grant.value.amount <= MAX_GIVE
    ensures p.grant.Some? ==> GetCustomItemId(p.grant) == Some(ToLower(args[2]))
    ensures !canGive ==> p == CommandPlan([NoPermission], None)
    ensures canGive && |args| < 3 ==> p == CommandPlan([GiveUsage], None)
    ensures |p.replies| >= 1
    ensures canGive && |args| >= 3 && !targetOnline ==> p == CommandPlan([PlayerNotFound(args[1])], None)
    ensures canGive && |args| >= 3 && targetOnline ==> (p.replies[0] == InvalidAmount <==> GiveAmount(args).1)
    ensures canGive && |args| >= 3 && targetOnline && ToLower(args[2]) !in manager.GetRegisteredIds() ==>
              p.replies[|p.replies| - 1] == InvalidItemId(ToLower(args[2]), manager.GetRegisteredIds())
    ensures p.grant.Some? ==> Received(p.grant.value.amount, ToLower(args[2])) in p.replies
    ensures p.grant.Some? ==> (Gave(p.grant.value.amount, ToLower(args[2])) in p.replies <==> !senderIsTarget)
    ensures forall r :: r in p.replies && (r.Received? || r.Gave?) ==> p.grant.Some?
  {
    if !canGive then CommandPlan([NoPermission], None)
    else if |args| < 3 then CommandPlan([GiveUsage], None)
    else
      var itemId := ToLower(args[2]);
      if !targetOnline then CommandPlan([PlayerNotFound(args[1])], None)
      else
        var (amount, warned) := GiveAmount(args);
        var warning := if warned then [InvalidAmount] else [];
        match manager.CreateItemStack(itemId, amount)
        case Some(stack) =>
          CommandPlan(warning + [Received(amount, itemId)] + (if senderIsTarget then [] else [Gave(amount, itemId)]),
                      Some(stack))
        case None =>
          CommandPlan(warning + [InvalidItemId(itemId, manager.GetRegisteredIds())], None)
  }

  /** onCommand's plan: usage without arguments, "give" in any letter case, anything else unknown. */
  function CommandPlanOf(args: seq<string>, canGive: bool, targetOnline: bool, senderIsTarget: bool,
                         manager: ItemManager): (p: CommandPlan)
    reads manager
    requires manager.Valid()
    ensures |args| == 0 ==> p == CommandPlan([UsageHelp(manager.GetRegisteredIds())], None)
    ensures |args| > 0 && ToLower(args[0]) != "give" ==> p == CommandPlan([UnknownSubcommand], None)
    ensures |args| > 0 && ToLower(args[0]) == "give" ==> p == GivePlan(args, canGive, targetOnline, senderIsTarget, manager)
    ensures p.grant.Some? ==> |args| >= 3 && ToLower(args[0]) == "give" && canGive && targetOnline
    ensures p.grant.Some? ==> GetCustomItemId(p.grant) == Some(ToLower(args[2]))
    ensures p.grant.Some? ==> 1 <= p.grant.value.amount <= MAX_GIVE
  {
    if |args| == 0 then CommandPlan([UsageHelp(manager.GetRegisteredIds())], None)
    else if ToLower(args[0]) == "give" then GivePlan(args, canGive, targetOnline, senderIsTarget, manager)
    else CommandPlan([UnknownSubcommand], None)
  }

  /** "help", which tab completion offers, is answered as an unknown subcommand. */
  lemma HelpIsUnknownSubcommand(canGive: bool, targetOnline: bool, senderIsTarget: bool, manager: ItemManager)
    requires manager.Valid()
    ensures CommandPlanOf(["help"], canGive, targetOnline, senderIsTarget, manager) == CommandPlan([UnknownSubcommand], None)
  {
    assert ToLower("help") == "help";
  }

  /** An id names the same item in any letter case, since it is lower-cased before the lookup. */
  lemma GiveIgnoresIdCase(args: seq<string>, id: string, canGive: bool, targetOnline: bool,
                          senderIsTarget: bool, manager: ItemManager)
    requires manager.Valid()
    requires |args| >= 3
    ensures GivePlan(args[2 := id], canGive, targetOnline, senderIsTarget, manager)
            == GivePlan(args[2 := ToLower(id)], canGive, targetOnline, senderIsTarget, manager)
  {
    assert ToLower(ToLower(id)) == ToLower(id);
    assert GiveAmount(args[2 := id]) == GiveAmount(args[2 := ToLower(id)]);
  }

  /**
   * onCommand. The target player's inventory (None when no such player is
   * online) receives the planned stack; the method always reports the
   * command as handled.
   */
  method OnCommand(args: seq<string>, canGive: bool, target: Option<PlayerInventory>, senderIsTarget: bool,
                   manager: ItemManager) returns (handled: bool, replies: seq<Reply>)
    requires manager.Valid()
    modifies if target.Some? then {target.value} else {}
    ensures handled
    ensures replies == CommandPlanOf(args, canGive, target.Some?, senderIsTarget, manager).replies
    ensures target.Some? ==>
              var grant := CommandPlanOf(args, canGive, true, senderIsTarget, manager).grant;
              forall k :: target.value.Count(k) ==
                            old(target.value.Count(k)) + (if grant.Some? && KindOf(grant.value) == k then grant.value.amount else 0)
  {
    if |args| == 0 {
      return true, [UsageHelp(manager.GetRegisteredIds())];
    }
    var subCommand := ToLower(args[0]);
    if subCommand == "give" {
      handled, replies := HandleGiveCommand(args, canGive, target, senderIsTarget, manager);
    } else {
      return true, [UnknownSubcommand];
    }
  }

  /** handleGiveCommand: the amount starts at 1 and is replaced by the clamped parse when there is one. */
  method HandleGiveCommand(args: seq<string>, canGive: bool, target: Option<PlayerInventory>, senderIsTarget: bool,
                           manager: ItemManager) returns (handled: bool, replies: seq<Reply>)
    requires manager.Valid()
    modifies if target.Some? then {target.value} else {}
    ensures handled
    ensures replies == GivePlan(args, canGive, target.Some?, senderIsTarget, manager).replies
    ensures target.Some? ==>
              var grant := GivePlan(args, canGive, true, senderIsTarget, manager).grant;
              forall k :: target.value.Count(k) ==
                            old(target.value.Count(k)) + (if grant.Some? && KindOf(grant.value) == k then grant.value.amount else 0)
  {
    if !canGive {
      return true, [NoPermission];
    }
    if |args| < 3 {
      return true, [GiveUsage];
    }
    var itemId := ToLower(args[2]);
    var amount := 1;
    if target.None? {
      return true, [PlayerNotFound(args[1])];
    }
    replies := [];
    if |args| >= 4 {
      var parsed := ParseInt(args[3]);
      if parsed.Some? {
        amount := parsed.value;
        amount := if amount < 1 then 1 else if amount > MAX_GIVE then MAX_GIVE else amount;
      } else {
        replies := replies + [InvalidAmount];
      }
    }
    var itemToGive := manager.CreateItemStack(itemId, amount);
    if itemToGive.Some? {
      target.value.AddItem(itemToGive.value);
      replies := replies + [Received(amount, itemId)];
      if !senderIsTarget {
        replies := replies + [Gave(amount, itemId)];
      }
    } else {
      replies := replies + [InvalidItemId(itemId, manager.GetRegisteredIds())];
    }
    handled := true;
  }

  // ---------------------------------------------------------------------
  // onTabComplete
  // ---------------------------------------------------------------------

  /** The elements of `xs` that start with `prefix`, in their order in `xs`. */
  function FilterPrefix(xs: seq<string>, prefix: string): (r: seq<string>)
    ensures forall e :: e in r <==> e in xs && StartsWith(e, prefix)
    ensures |r| <= |xs|
    ensures (forall e :: e in xs ==> StartsWith(e, prefix)) ==> r == xs
    decreases |xs|
  {
    if xs == [] then []
    else (if StartsWith(xs[0], prefix) then [xs[0]] else []) + FilterPrefix(xs[1..], prefix)
  }

  /** Filtering keeps order: the filter of a concatenation is the concatenation of the filters. */
  lemma {:induction false} FilterPrefixAppend(a: seq<string>, b: seq<string>, prefix: string)
    ensures FilterPrefix(a + b, prefix) == FilterPrefix(a, prefix) + FilterPrefix(b, prefix)
    decreases |a|
  {
    if a != [] {
      assert (a + b)[0] == a[0];
      assert (a + b)[1..] == a[1..] + b;
      FilterPrefixAppend(a[1..], b, prefix);
    } else {
      assert a + b == b;
    }
  }

  /** A single element is kept exactly when it has the prefix. */
  lemma FilterPrefixSingleton(x: string, prefix: string)
    ensures FilterPrefix([x], prefix) == if StartsWith(x, prefix) then [x] else []
  {
    assert [x][1..] == [];
  }

  const SUBCOMMANDS: seq<string> := ["give", "help"]
  const AMOUNT_SUGGESTIONS: seq<string> := ["1", "5", "16", "64"]

  /**
   * onTabComplete. `online` lists the online players' names and `ids` the
   * registry's ids in its iteration order. None stands for the exception
   * that reading the first argument throws when there is none.
   */
  function TabComplete(args: seq<string>, canGive: bool, online: seq<string>, ids: seq<string>): (r: Option<seq<string>>)
    ensures r.None? <==> |args| == 0
    ensures |args| == 1 ==> r == Some(FilterPrefix(SUBCOMMANDS, ToLower(args[0])))
    ensures |args| > 1 && !(ToLower(args[0]) == "give" && canGive) ==> r == Some([])
    ensures |args| > 1 && ToLower(args[0]) == "give" && canGive ==>
              r == Some(if |args| == 2 then FilterPrefix(online, args[1])
                        else if |args| == 3 then FilterPrefix(ids, ToLower(args[2]))
                        else if |args| == 4 then AMOUNT_SUGGESTIONS
                        else [])
  {
    if |args| == 0 then None
    else if |args| == 1 then Some(FilterPrefix(SUBCOMMANDS, ToLower(args[0])))
    else if ToLower(args[0]) == "give" && canGive then
      if |args| == 2 then Some(FilterPrefix(online, args[1]))
      else if |args| == 3 then Some(FilterPrefix(ids, ToLower(args[2])))
      else if |args| == 4 then Some(AMOUNT_SUGGESTIONS)
      else Some([])
    else Some([])
  }

  /** An empty first argument offers both subcommands, in the order give, help. */
  lemma EmptyArgumentOffersBoth()
    ensures TabComplete([""], false, [], []) == Some(["give", "help"])
  {
    assert SUBCOMMANDS[1..] == ["help"];
    assert SUBCOMMANDS[1..][1..] == [];
  }

  /** The subcommand prefix is matched without regard to letter case. */
  lemma UpperCasePrefixCompletes()
    ensures TabComplete(["G"], false, [], []) == Some(["give"])
  {
    var args := ["G"];
    assert ToLower(args[0]) == "g";
    assert StartsWith("give", "g");
    assert !StartsWith("help", "g");
    assert SUBCOMMANDS[1..] == ["help"];
    assert SUBCOMMANDS[1..][1..] == [];
    assert FilterPrefix(SUBCOMMANDS[1..][1..], "g") == [];
    assert FilterPrefix(SUBCOMMANDS[1..], "g") == [];
    assert FilterPrefix(SUBCOMMANDS, "g") == ["give"];
  }

  /** Item id completion offers exactly the registered ids with the lower-cased prefix. */
  lemma IdCompletion(args: seq<string>, manager: ItemManager, ids: seq<string>, online: seq<string>, e: string)
    requires |args| == 3 && ToLower(args[0]) == "give"
    requires forall id :: id in ids <==> id in manager.GetRegisteredIds()
    ensures TabComplete(args, true, online, ids).Some?
    ensures e in TabComplete(args, true, online, ids).value <==>
              e in manager.GetRegisteredIds() && StartsWith(e, ToLower(args[2]))
  {
  }
}
