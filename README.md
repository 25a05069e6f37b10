# ItemsBGS core, modelled in Dafny

ItemsBGS is a Bukkit server plugin that adds three throwable custom items: a
molotov cocktail, a grenade and a tear gas canister. This project models the
parts of the plugin that carry logic of their own:

- the **item registry** (`ItemManager`). It maps item ids to item definitions,
  writes an item's id as a tag into the stacks it creates, and reads the tag
  back from held stacks. At startup the plugin registers molotov, grenade and
  teargas (`registry.dfy`);
- the **activation gateway** (`ItemListener.onPlayerInteract`). Its guard
  chain decides whether a click belongs to a custom item, and then claims the
  event. A projectile item is thrown only after the target is validated and one
  unit is consumed; a utility item is activated directly (`listener.dfy`);
- the **shared targeting** of projectile items (`AbstractTargetingItem`). Its
  range field is used for one ray-trace and then reset to 50 (`targeting.dfy`);
- the **molotov**:
  - the per-tick landing tracker;
  - the 5x5 fire ring, which places fire on air above solid ground;
  - the deferred revert, which turns a cell back to air only while it still
    burns (`molotov.dfy`);
- the **tear gas landing tracker** (`TearGasTracker`, `tear_gas.dfy`);
- the **/itemsbgs command**: subcommand dispatch, the give subcommand with its
  amount parsing and clamping to [1, 64], and tab completion (`command.dfy`).

Shared vocabulary is in `common.dfy`: materials, stacks and their meta tag,
item definitions, positions, and ASCII lower-casing. A player's inventory
counts units per kind of similar stack (`inventory.dfy`).

Both trackers are modelled the same way. A pure step function (`MolotovStep`,
`TearGasStep`) takes the tracker's fields and what one tick reads from the
thrown entity. Those readings are:

- validity;
- age in ticks;
- a "settled" sample: the block below is not air for the molotov, and the
  velocity is below threshold for the tear gas;
- ground contact;
- water contact.

Each step function is folded over tick sequences (`MolotovRun`,
`TearGasRun`), and the lemmas about runs are proved over those folds. The
tracker classes update their fields in place, and each `Run` method is proved
equal to one step. A cancelled task is not run again by the scheduler, so a
step from a cancelled state changes nothing.

As written, both trackers test the clean landing and the failsafe
independently. So a landing detected on a tick past the failsafe age fires
the effect twice in that tick. For the molotov, the second fire placement
changes nothing (`NothingIgnitesTwice`). For the tear gas, it spawns a second
cloud (see Findings).

## Model

| member | source | states |
|---|---|---|
| Common.GetItem | src/main/java/me/remag501/itemsbgs/item/MolotovItem.java:47-61 | an item's stack has the item's material and exactly the requested amount, and carries meta without a tag |
| Common.ToLower | src/main/java/me/remag501/itemsbgs/command/ItemsBGSCommand.java:41 | lower-casing keeps the length, lower-cases every letter, leaves no upper-case letter, and leaves an already lower-case string unchanged |
| Registry.Lookup | src/main/java/me/remag501/itemsbgs/manager/ItemManager.java:41-43 | a lookup yields a value exactly when the id is a key, and then the value stored under it |
| Registry.GetCustomItemId | src/main/java/me/remag501/itemsbgs/manager/ItemManager.java:50-57 | no stack or no meta gives no id; a stack with meta gives exactly the tag stored in it, or none when it carries no tag |
| Registry.SetTag | src/main/java/me/remag501/itemsbgs/manager/ItemManager.java:70-72 | writing the tag keeps material and amount, and reading the tag back yields the id written |
| Registry.LookupFindsLastRegistration | src/main/java/me/remag501/itemsbgs/manager/ItemManager.java:31-43 | after a series of registrations, a lookup finds the last item registered under the id, or what the registry held before if the id was never registered |
| Registry.StartupRegistry | src/main/java/me/remag501/itemsbgs/ItemsBGS.java:42-46 | the startup registrations build exactly the map molotov, grenade, teargas, each a projectile item |
| Registry.ItemManager.constructor | src/main/java/me/remag501/itemsbgs/manager/ItemManager.java:21-25 | a new registry is empty |
| Registry.ItemManager.RegisterItem | src/main/java/me/remag501/itemsbgs/manager/ItemManager.java:31-34 | the item is stored under its id, overwriting any earlier entry; every other entry is unchanged |
| Registry.ItemManager.GetItemById | src/main/java/me/remag501/itemsbgs/manager/ItemManager.java:41-43 | an item is found exactly for a registered id, and it is the very item stored under that id |
| Registry.ItemManager.GetRegisteredIds | src/main/java/me/remag501/itemsbgs/manager/ItemManager.java:81-83 | the id set holds exactly the registry's keys |
| Registry.ItemManager.CreateItemStack | src/main/java/me/remag501/itemsbgs/manager/ItemManager.java:65-76 | no stack exactly for an unregistered id; otherwise the item's material and the requested amount, and the tag read back from the stack is the id and finds the same item |
| Registry.RegisterCustomItems | src/main/java/me/remag501/itemsbgs/ItemsBGS.java:42-46 | after the startup registrations the registered ids are exactly molotov, grenade and teargas, all projectile items |
| Targeting.CenterOf | src/main/java/me/remag501/itemsbgs/item/AbstractTargetingItem.java:42-48 | no block gives no location; a block gives the point half a block inside it on every axis |
| Targeting.TargetingItem.constructor | src/main/java/me/remag501/itemsbgs/item/AbstractTargetingItem.java:21-23 | the range starts at 50 |
| Targeting.TargetingItem.WithRange | src/main/java/me/remag501/itemsbgs/item/AbstractTargetingItem.java:25-27 | the range starts at the given value |
| Targeting.TargetingItem.GetActivationLocation | src/main/java/me/remag501/itemsbgs/item/AbstractTargetingItem.java:35-49 | the ray-trace runs with the range held on entry, the result is the centre of the block found (none without a block), and the range is 50 afterwards |
| Targeting.CustomRangeAppliesOnce | src/main/java/me/remag501/itemsbgs/item/AbstractTargetingItem.java:38-40 | a custom range reaches only the first call; the second call traces with 50 |
| Inventory.PlayerInventory.AddItem | src/main/java/me/remag501/itemsbgs/command/ItemsBGSCommand.java:85 | the stack's units join its kind; other kinds are unchanged |
| Inventory.PlayerInventory.RemoveOne | src/main/java/me/remag501/itemsbgs/listener/ItemListener.java:77-82 | one unit of the kind is removed if there is one; other kinds are unchanged |
| Molotov.RingCells | src/main/java/me/remag501/itemsbgs/item/MolotovItem.java:111-114 | the cells visited are exactly those at offsets -2..2 in x and z, at the landing height |
| Molotov.Ignite | src/main/java/me/remag501/itemsbgs/item/MolotovItem.java:111-119 | a cell of the ring becomes fire exactly when the block below is solid and the cell was air; every other cell keeps its block |
| Molotov.NothingIgnitesTwice | src/main/java/me/remag501/itemsbgs/item/MolotovItem.java:117-118 | after a fire placement no cell of the ring qualifies again |
| Molotov.IgniteIdempotent | src/main/java/me/remag501/itemsbgs/item/MolotovItem.java:111-119 | a second fire placement at the same centre changes no block |
| Molotov.Revert | src/main/java/me/remag501/itemsbgs/item/MolotovItem.java:121-128 | a revert turns the cell to air only if it is fire, and leaves every other cell as it is |
| Molotov.RevertAllRestores | src/main/java/me/remag501/itemsbgs/item/MolotovItem.java:121-128 | reverting every ignited cell, while those cells still burn, brings back the world as it was before the fire |
| Molotov.IgniteThenRevertRestores | src/main/java/me/remag501/itemsbgs/item/MolotovItem.java:111-128 | when nothing else touches the burning cells, the scheduled reverts undo the fire placement exactly |
| Molotov.World.Activate | src/main/java/me/remag501/itemsbgs/item/MolotovItem.java:104-135 | the nested loops leave the world equal to the fire placement on the old world, and schedule a revert for exactly the cells ignited, each once |
| Molotov.World.RevertFire | src/main/java/me/remag501/itemsbgs/item/MolotovItem.java:121-128 | the world becomes the revert of the old world at that cell |
| Molotov.MolotovStep | src/main/java/me/remag501/itemsbgs/item/MolotovItem.java:152-190 | an invalid entity cancels without firing; the age gate changes nothing; the counter grows on a non-air block below and resets on air; up to age 60 the effect fires once, and the task cancels, exactly when the counter reaches 2 with ground or water contact; the failsafe past age 60 always fires and cancels; at most two activations, and two exactly when a clean landing falls on a tick past age 60 |
| Molotov.CancelledIsTerminal | src/main/java/me/remag501/itemsbgs/item/MolotovItem.java:152-190 | once cancelled, any further ticks change nothing and fire nothing |
| Molotov.AtMostTwoActivations | src/main/java/me/remag501/itemsbgs/item/MolotovItem.java:175-189 | over any run of ticks the effect fires at most twice, and never from a cancelled tracker |
| Molotov.FailsafeDeadline | src/main/java/me/remag501/itemsbgs/item/MolotovItem.java:186-189 | an entity that stays valid has fired and stopped by the first tick past age 60 |
| Molotov.DoubleActivationAtFailsafeAge | src/main/java/me/remag501/itemsbgs/item/MolotovItem.java:175-189 | a clean landing at age 61 fires the effect twice in that tick |
| Molotov.MolotovTracker.constructor | src/main/java/me/remag501/itemsbgs/item/MolotovItem.java:145-149 | the counter starts at 0, not cancelled |
| Molotov.MolotovTracker.Run | src/main/java/me/remag501/itemsbgs/item/MolotovItem.java:152-190 | the new fields and the number of activations are those of one step; the world is the fire placement at the entity's block whenever the effect fires, and unchanged otherwise; the entity is removed exactly when the effect fires |
| TearGas.TearGasStep | src/main/java/me/remag501/itemsbgs/runnable/TearGasTracker.java:53-90 | an invalid canister cancels without a cloud; the age gate changes nothing; the counter grows on a slow sample and resets otherwise; the failsafe past age 60 spawns and cancels; at most two clouds, and two exactly when a landing falls on a tick past age 60; reachable counter values are kept |
| TearGas.LandsOnSecondSlowSample | src/main/java/me/remag501/itemsbgs/runnable/TearGasTracker.java:66-82 | before the failsafe age a post-gate tick lands exactly when it is the second slow sample in a row |
| TearGas.CancelledIsTerminal | src/main/java/me/remag501/itemsbgs/runnable/TearGasTracker.java:53-90 | once cancelled, any further ticks change nothing and spawn nothing |
| TearGas.EarlyTicksIgnored | src/main/java/me/remag501/itemsbgs/runnable/TearGasTracker.java:62-64 | ticks younger than 10 with a valid canister leave the tracker unchanged and spawn nothing |
| TearGas.FailsafeDeadline | src/main/java/me/remag501/itemsbgs/runnable/TearGasTracker.java:85-89 | a canister that stays valid has spawned a cloud and stopped by the first tick past age 60 |
| TearGas.InvalidationSuppressesCloud | src/main/java/me/remag501/itemsbgs/runnable/TearGasTracker.java:55-58 | an invalidated canister never gives a cloud, whatever ticks follow |
| TearGas.LandingScenario | src/main/java/me/remag501/itemsbgs/runnable/TearGasTracker.java:62-82 | slow readings at ages 10 and 11 after the gate give one cloud, at age 11, and stop the task |
| TearGas.NeverSlowBeforeDeadline | src/main/java/me/remag501/itemsbgs/runnable/TearGasTracker.java:66-89 | a canister never slow up to age 60 keeps the counter at 0 and spawns nothing |
| TearGas.FailsafeScenario | src/main/java/me/remag501/itemsbgs/runnable/TearGasTracker.java:85-89 | a canister never slow spawns exactly one cloud, on the tick at age 61 |
| TearGas.DoubleCloudAtFailsafeAge | src/main/java/me/remag501/itemsbgs/runnable/TearGasTracker.java:75-89 | slow readings at ages 60 and 61 give two clouds in the tick at age 61 |
| TearGas.TearGasStepResolved | src/main/java/me/remag501/itemsbgs/runnable/TearGasTracker.java:75-89 | with the failsafe limited to unresolved trackers, a tick spawns at most one cloud, and one exactly when it ends the task while the canister is valid |
| TearGas.ResolvedAtMostOnce | src/main/java/me/remag501/itemsbgs/runnable/TearGasTracker.java:75-89 | with that correction a canister gives at most one cloud over any run, and exactly one when the task ends without an invalidation |
| TearGas.TearGasTracker.constructor | src/main/java/me/remag501/itemsbgs/runnable/TearGasTracker.java:26 | the counter starts at 0, not cancelled |
| TearGas.TearGasTracker.Run | src/main/java/me/remag501/itemsbgs/runnable/TearGasTracker.java:53-90 | the new fields and the number of clouds are those of one step; every cloud is at the canister's location; the canister is removed exactly when a cloud spawns |
| Listener.Resolve | src/main/java/me/remag501/itemsbgs/listener/ItemListener.java:37-64 | a click resolves to an item exactly when it is a right-click with a non-air stack whose tag names a registered id, and then to that id's item |
| Listener.Decide | src/main/java/me/remag501/itemsbgs/listener/ItemListener.java:35-92 | the event is claimed exactly when the click resolves; an unresolved click has no effect; a resolved projectile with a target is thrown at that target with one unit consumed; a projectile without target gets the message and consumes nothing; a utility item is activated and consumes nothing |
| Listener.ProjectileNeverActivated | src/main/java/me/remag501/itemsbgs/listener/ItemListener.java:65-91 | a projectile item is claimed but never reaches onActivate |
| Listener.StartupItemsAreThrown | src/main/java/me/remag501/itemsbgs/listener/ItemListener.java:65-91 | with the startup registry no click activates an item directly |
| Listener.ItemListener.constructor | src/main/java/me/remag501/itemsbgs/listener/ItemListener.java:29-32 | the listener holds the given registry |
| Listener.ItemListener.OnPlayerInteract | src/main/java/me/remag501/itemsbgs/listener/ItemListener.java:35-92 | the effect is the decision's; the event becomes cancelled when claimed; one unit of the held kind is removed exactly when the item is thrown; all other kinds are unchanged |
| Command.ParseInt | src/main/java/me/remag501/itemsbgs/command/ItemsBGSCommand.java:74 | an optional sign then at least one digit parses exactly when its value lies in the 32-bit range, and then to that value (negated after '-'); anything else, the empty string and a lone sign included, does not parse |
| Command.ParseIntRoundTrip | src/main/java/me/remag501/itemsbgs/command/ItemsBGSCommand.java:74 | every 32-bit integer written in decimal parses back to itself |
| Command.Clamp | src/main/java/me/remag501/itemsbgs/command/ItemsBGSCommand.java:75 | the result lies in [1, 64], equals the input inside that range, and is the nearer bound outside it |
| Command.GiveAmount | src/main/java/me/remag501/itemsbgs/command/ItemsBGSCommand.java:65-79 | the amount is 1 without a fourth argument, the clamped value of a parsable one, and 1 with a warning exactly for one that does not parse |
| Command.NonNumericAmountDefaultsToOne | src/main/java/me/remag501/itemsbgs/command/ItemsBGSCommand.java:72-79 | the amount "abc" gives 1 with a warning |
| Command.LargeAmountClampedTo64 | src/main/java/me/remag501/itemsbgs/command/ItemsBGSCommand.java:72-79 | the amount "100" gives 64 without a warning |
| Command.GivePlan | src/main/java/me/remag501/itemsbgs/command/ItemsBGSCommand.java:51-96 | checks in order permission, argument count and player; a stack is granted exactly when the lower-cased id is registered, with the parsed and clamped amount and the id's tag; the warning comes first; an unknown id lists the registered ids; the Received and Gave replies appear only when a stack is granted, and the sender is told only when it is not the target |
| Command.CommandPlanOf | src/main/java/me/remag501/itemsbgs/command/ItemsBGSCommand.java:35-49 | no arguments give the usage; "give" in any letter case runs the give plan; any other first argument is an unknown subcommand |
| Command.HelpIsUnknownSubcommand | src/main/java/me/remag501/itemsbgs/command/ItemsBGSCommand.java:41-47 | "help", which completion offers, is answered as an unknown subcommand |
| Command.GiveIgnoresIdCase | src/main/java/me/remag501/itemsbgs/command/ItemsBGSCommand.java:64 | an id given in any letter case has the same effect, messages and stack as its lower-case form |
| Command.OnCommand | src/main/java/me/remag501/itemsbgs/command/ItemsBGSCommand.java:35-49 | always handled; the replies are the plan's, and the target's inventory gains exactly the planned stack |
| Command.HandleGiveCommand | src/main/java/me/remag501/itemsbgs/command/ItemsBGSCommand.java:51-96 | always handled; with the amount reassigned step by step, the replies are the give plan's, and the target's inventory gains exactly the planned stack |
| Command.FilterPrefix | src/main/java/me/remag501/itemsbgs/command/ItemsBGSCommand.java:102-104 | the result holds exactly the elements with the prefix, is no longer than the input, and is the whole input when every element has the prefix |
| Command.FilterPrefixAppend | src/main/java/me/remag501/itemsbgs/command/ItemsBGSCommand.java:102-104 | filtering keeps encounter order: the filter of a concatenation is the concatenation of the filters |
| Command.FilterPrefixSingleton | src/main/java/me/remag501/itemsbgs/command/ItemsBGSCommand.java:102-104 | a single element is kept exactly when it starts with the prefix |
| Command.TabComplete | src/main/java/me/remag501/itemsbgs/command/ItemsBGSCommand.java:99-129 | one argument completes the subcommands by lower-cased prefix; for give with permission, players by exact prefix, ids by lower-cased prefix, the fixed amounts, and nothing beyond; nothing otherwise |
| Command.EmptyArgumentOffersBoth | src/main/java/me/remag501/itemsbgs/command/ItemsBGSCommand.java:100-104 | an empty first argument offers give then help |
| Command.UpperCasePrefixCompletes | src/main/java/me/remag501/itemsbgs/command/ItemsBGSCommand.java:100-104 | the prefix "G" completes to give alone |
| Command.IdCompletion | src/main/java/me/remag501/itemsbgs/command/ItemsBGSCommand.java:115-121 | for ids listing exactly the registry's keys, id completion offers exactly the registered ids with the lower-cased prefix |

## Left out

- Throw physics: the thrown entity's velocity and flight are floating point engine physics. The trackers take per-tick readings as inputs instead, and the entity's age is one of them.
- The velocity threshold (squared speed below 0.005) is a floating point test; the tear gas tracker reads it as a boolean sample.
- Cloud construction: radius, duration, effects, particles and the half-block lift above a solid block are configuration handed to the engine. A cloud is modelled as spawned at the canister's location.
- Sounds, messages' wording and colours, display names and lore are left out. Replies are kept as values naming what is said.
- The grenade's throw is a sound and an explosion, both calls into the engine.
- The scheduler becomes explicit calls. The tracker's `Run` is one timer tick, and `World.RevertFire` is the deferred revert 60 ticks later.
- `getTargetBlock` is the engine's ray-trace. It is a function parameter from range to the block found.
- Permission checks, `Bukkit.getPlayer` and the online players are boolean or list inputs. So is whether the sender is the target.
- The registry's id set is unordered, and its iteration order is an input to tab completion.
- Command.ParseInt: accepts ASCII digits only, where the Java parser also accepts other Unicode decimal digits.
- Common.ToLower: lower-cases ASCII letters only, where Java lower-cases all of Unicode.
- Common.ToLower: ignores the default locale that Java's toLowerCase() follows; under a Turkish locale "GIVE" lower-cases to a dotless-i string that is not "give".
- The log line registerItem writes for every registration (ItemManager.java:33) is output only and is not modelled.
- Command.TabComplete: with no arguments the Java code throws on reading the first argument; the model returns None.
- Inventory.PlayerInventory.AddItem: does not model a full inventory, where the engine hands the overflow back and drops it.
- Inventory.PlayerInventory.RemoveOne: counts units per kind of similar stack. Which slot loses the unit is not modelled.
- Listener.Decide: the target is an input, computed by the item's getActivationLocation; the listener asks for it only for projectile items, and the result is only used then.
- The ticks-stationary counter is an unbounded integer. A Java int could wrap only after about two billion ticks, far beyond the failsafe.
- The event's player and the plugin instance passed to the items are not represented.
- Plugin bootstrap, the static plugin accessor, and registering the command and the listener are wiring.

## Findings

| source | as written | input that shows it | evidently intended | confidence | as-written member | corrected member |
|---|---|---|---|---|---|---|
| src/main/java/me/remag501/itemsbgs/runnable/TearGasTracker.java:75-89 | the failsafe test runs even when the landing test in the same tick has already spawned a cloud and cancelled the task | a valid canister read slow at ages 60 and 61: the tick at 61 lands and then also passes the failsafe, so two clouds spawn | one cloud per canister; the failsafe only acts on a tracker not yet resolved | high (not executed) | TearGas.DoubleCloudAtFailsafeAge | TearGas.ResolvedAtMostOnce |
