# EnvyAPI core, modelled in Dafny

This project models the core of the EnvyAPI Minecraft plugin library and proves properties of that model.

**Command engine**
- The `PlatformCommand` dispatch tree. It covers permission checks, sub-command routing, executors, descriptions and tab completion with its fallback chain.
- The `AnnotationCommandParser`, which checks an annotated command class and builds a node from it. Reflection is replaced by an explicit schema of classes, methods and parameters, plus registries for injectors, sender types and completers.

**Small stateful structures**
- `TimeOutHashMap`: the clock is an explicit `now` argument.
- The GUI tick handler.
- `KeyedMap` and `Key`.
- The player manager's cache, the save manager's attribute maps and the config serializer registry.

**String and tree transformations**
- The chat-colour code table and colour stripping.
- Placeholders.
- The permitted/else item choice and the NBT parsing of `UtilConfigItem`.

**Decision rules**
- Config rewards.
- GUI close consumers.
- The console message target.

Each stateful Java class is a Dafny `class` whose methods are proved against pure functions in the same module. The properties the source promises are lemmas about those functions. Java `null` is `None`, and a thrown exception is a `Failure` or an explicit flag. Calls into the platform are function-typed parameters or fields: permission checks, text parsing, name matching, completers and reflective method calls.

Where the description of the library and its code disagree, the model follows the code:
- `executeSync` checks the current node's permission before trying to match a sub-command, at every level (`PlatformCommand.java:80`).
- The executor receives the node's whole token array.
- The player-name fallback of tab completion filters on the first token, not the last (`PlatformCommand.java:164`).
- A class without a `@CommandProcessor` method gets a null executor from `getCommandExecutor`. It still fails to build, because `getTabHandler` dereferences the missing processor (`AnnotationCommandParser.java:324-325`).

## Model

| member | source | states |
|---|---|---|
| JavaStrings.ToLowerString | forge16/src/main/java/com/envyful/api/forge/config/UtilConfigItem.java:181 | lowering the type name keeps its length |
| JavaStrings.EqualsIgnoreCase | commons/src/main/java/com/envyful/api/command/PlatformCommand.java:115-127 | `String.equalsIgnoreCase`: equal lengths, and at each position the characters are equal or have equal upper cases. It is reflexive, and a lowered string equals its original (the two lemmas below) |
| JavaStrings.EqualsIgnoreCaseReflexive | commons/src/main/java/com/envyful/api/player/manager/AbstractPlayerManager.java:67 | every string equals itself ignoring case |
| JavaStrings.ToLowerStringIgnoresCase | forge16/src/main/java/com/envyful/api/forge/config/UtilConfigItem.java:181 | a lowered string equals the original ignoring case |
| JavaStrings.ParseInteger | forge16/src/main/java/com/envyful/api/forge/config/UtilConfigItem.java:182-200 | `Integer.parseInt` and its siblings: a parsed value lies in the type's range, and is the decimal value of the digits, negated after a minus. Empty text fails, and so does text that is not digits after an optional sign, a lone sign included. Digits whose value, with its sign, is outside the range fail too |
| JavaStrings.NatStringValue | commons/src/main/java/com/envyful/api/text/Placeholder.java:64-66 | `String.valueOf` of a natural number is a non-empty digit string, without a sign, whose decimal value is the number |
| JavaStrings.DecimalStringRoundTrip | commons/src/main/java/com/envyful/api/text/Placeholder.java:64-78 | parsing what `String.valueOf(n)` prints gives `n` back, whenever `n` is in range |
| MapViews.EnumerationLength | commons/src/main/java/com/envyful/api/player/manager/AbstractPlayerManager.java:77 | an iteration order over a key set has exactly one element per key |
| MapViews.Values | commons/src/main/java/com/envyful/api/player/manager/AbstractPlayerManager.java:76-78 | `List.copyOf(map.values())` has one value per key, following a duplicate-free iteration order of all the keys, and holds exactly the map's values |
| MapViews.ValuesAreTheMapValues | commons/src/main/java/com/envyful/api/player/manager/AbstractPlayerManager.java:76-78 | a value is in the copy exactly when some key maps to it |
| TimeOutMaps.Lookup | commons/src/main/java/com/envyful/api/type/TimeOutHashMap.java:52-60 | `get` on the backing map: the value of an entry present and not timed out, else null. `GetAfterPut`, `PutChangesOnlyItsKey`, `RemoveForgets` and `LiveViewsAgree` state its behaviour |
| TimeOutMaps.PutAt | commons/src/main/java/com/envyful/api/type/TimeOutHashMap.java:63-66 | `put` on the backing map: the key maps to the value stamped with `now`; `GetAfterPut` and `PutChangesOnlyItsKey` state its effect |
| TimeOutMaps.LiveEntries | commons/src/main/java/com/envyful/api/type/TimeOutHashMap.java:105-115 | `entrySet`: the key/value pairs of the entries not timed out; `LiveViewsAgree` ties it to `get` and `containsValue` |
| TimeOutMaps.TimeOutHashMap.constructor | commons/src/main/java/com/envyful/api/type/TimeOutHashMap.java:21-23 | the map starts empty, with the given cache duration |
| TimeOutMaps.TimeOutHashMap.Size | commons/src/main/java/com/envyful/api/type/TimeOutHashMap.java:26-28 | the size counts every entry, timed out or not |
| TimeOutMaps.TimeOutHashMap.IsEmpty | commons/src/main/java/com/envyful/api/type/TimeOutHashMap.java:31-33 | the map is empty only when it holds no entry at all, timed out ones included |
| TimeOutMaps.TimeOutHashMap.Get | commons/src/main/java/com/envyful/api/type/TimeOutHashMap.java:52-60 | `get` gives the stored value of a present entry that has not timed out, otherwise null; the map is not changed |
| TimeOutMaps.TimeOutHashMap.ContainsKey | commons/src/main/java/com/envyful/api/type/TimeOutHashMap.java:36-38 | `containsKey` is `get(key) != null` |
| TimeOutMaps.TimeOutHashMap.ContainsValue | commons/src/main/java/com/envyful/api/type/TimeOutHashMap.java:41-49 | `containsValue` is true exactly when some live entry holds the value |
| TimeOutMaps.TimeOutHashMap.Put | commons/src/main/java/com/envyful/api/type/TimeOutHashMap.java:63-66 | `put` stamps the entry with `now` and returns the previous stored value |
| TimeOutMaps.TimeOutHashMap.Remove | commons/src/main/java/com/envyful/api/type/TimeOutHashMap.java:69-72 | `remove` deletes the entry and returns the stored value, timed out or not |
| TimeOutMaps.TimeOutHashMap.PutAll | commons/src/main/java/com/envyful/api/type/TimeOutHashMap.java:75-79 | `putAll` is the entries put one after another, all stamped `now` |
| TimeOutMaps.TimeOutHashMap.Clear | commons/src/main/java/com/envyful/api/type/TimeOutHashMap.java:82-84 | `clear` leaves no entry |
| TimeOutMaps.TimeOutHashMap.KeySet | commons/src/main/java/com/envyful/api/type/TimeOutHashMap.java:87-89 | `keySet` includes the keys of timed-out entries |
| TimeOutMaps.TimeOutHashMap.Values | commons/src/main/java/com/envyful/api/type/TimeOutHashMap.java:92-102 | `values` lists the value of each live entry once and of no other entry, so a value is listed exactly when `containsValue` holds for it |
| TimeOutMaps.TimeOutHashMap.EntrySet | commons/src/main/java/com/envyful/api/type/TimeOutHashMap.java:105-115 | `entrySet` is the set of key/value pairs of the live entries |
| TimeOutMaps.GetAfterPut | commons/src/main/java/com/envyful/api/type/TimeOutHashMap.java:52-66 | right after `put`, `get` returns the value exactly when the cache duration is positive |
| TimeOutMaps.PutChangesOnlyItsKey | commons/src/main/java/com/envyful/api/type/TimeOutHashMap.java:63-66 | `put` leaves every other key's reading unchanged; its own entry reads back until `later - now` reaches the duration; the size grows only for a new key |
| TimeOutMaps.PreviousIgnoresTimeout | commons/src/main/java/com/envyful/api/type/TimeOutHashMap.java:63-72 | for a timed-out entry, `put` and `remove` return its value while `get` returns null, and the entry still counts for the size |
| TimeOutMaps.RemoveForgets | commons/src/main/java/com/envyful/api/type/TimeOutHashMap.java:69-72 | after `remove` the key reads as absent and every other key reads as before |
| TimeOutMaps.NullValueIsNotContained | commons/src/main/java/com/envyful/api/type/TimeOutHashMap.java:36-38 | a key mapped to null reads as absent |
| TimeOutMaps.NonPositiveDurationHidesAll | commons/src/main/java/com/envyful/api/type/TimeOutHashMap.java:117-119 | with a duration of at most 0, everything put up to now is hidden from `get`, `containsValue` and `entrySet` |
| TimeOutMaps.LiveViewsAgree | commons/src/main/java/com/envyful/api/type/TimeOutHashMap.java:41-115 | `entrySet`, `containsValue` and `get` agree on which entries are live and what they hold |
| TimeOutMaps.PutAllConcat | commons/src/main/java/com/envyful/api/type/TimeOutHashMap.java:75-79 | `putAll` of two batches is the second batch put after the first |
| TimeOutMaps.PutAllLastWins | commons/src/main/java/com/envyful/api/type/TimeOutHashMap.java:75-79 | after `putAll`, a key reads as the last value given for it, and a key not given reads as before |
| GuiTicker.ShouldRun | neo21/src/main/java/com/envyful/api/neoforge/gui/ticker/ForgeGuiTickHandler.java:48-58 | `shouldRun`: before the first run, an initial delay of 0 or `ticks >= initialDelay`; after it, `ticks - lastRun >= repeatDelay`. `FirstRunRule` and `Schedule` state its consequences |
| GuiTicker.LastRunAfter | neo21/src/main/java/com/envyful/api/neoforge/gui/ticker/ForgeGuiTickHandler.java:32-58 | `lastRun` after `n` ticks of a fresh handler; `LastRunBounds` and `Schedule` state its range and the ticks that run |
| GuiTicker.TickHandler.constructor | neo21/src/main/java/com/envyful/api/neoforge/gui/ticker/ForgeGuiTickHandler.java:16-29 | a handler starts with `ticks == 0` and `lastRun == -1`, keeping the async flag and both delays |
| GuiTicker.TickHandler.Tick | neo21/src/main/java/com/envyful/api/neoforge/gui/ticker/ForgeGuiTickHandler.java:32-58 | each tick adds exactly one to `ticks`. When `shouldRun` holds, `lastRun` becomes `ticks` and the handler is invoked once, directly if async and through `runSync` otherwise. When it does not hold, `lastRun` is kept and nothing is invoked |
| GuiTicker.TickHandlerBuilder.constructor | neo21/src/main/java/com/envyful/api/neoforge/gui/ticker/ForgeGuiTickHandler.java:62-64 | the builder defaults are async, initial delay 0 and repeat delay -1 |
| GuiTicker.TickHandlerBuilder.Async | neo21/src/main/java/com/envyful/api/neoforge/gui/ticker/ForgeGuiTickHandler.java:71-74 | sets the async flag |
| GuiTicker.TickHandlerBuilder.Sync | neo21/src/main/java/com/envyful/api/neoforge/gui/ticker/ForgeGuiTickHandler.java:77-80 | clears the async flag |
| GuiTicker.TickHandlerBuilder.InitialDelay | neo21/src/main/java/com/envyful/api/neoforge/gui/ticker/ForgeGuiTickHandler.java:83-86 | sets the initial delay |
| GuiTicker.TickHandlerBuilder.RepeatDelay | neo21/src/main/java/com/envyful/api/neoforge/gui/ticker/ForgeGuiTickHandler.java:89-92 | sets the repeat delay |
| GuiTicker.TickHandlerBuilder.Build | neo21/src/main/java/com/envyful/api/neoforge/gui/ticker/ForgeGuiTickHandler.java:101-103 | `build` gives a fresh handler with the builder's settings and fresh counters |
| GuiTicker.LastRunBounds | neo21/src/main/java/com/envyful/api/neoforge/gui/ticker/ForgeGuiTickHandler.java:32-58 | after `n` ticks, `lastRun` is -1 or a tick between 1 and `n`, and tick `n` runs the handler exactly when `lastRun == n` afterwards |
| GuiTicker.FirstRunRule | neo21/src/main/java/com/envyful/api/neoforge/gui/ticker/ForgeGuiTickHandler.java:49-55 | before the first run, a tick runs the handler exactly when the initial delay is 0 or has been reached |
| GuiTicker.Schedule | neo21/src/main/java/com/envyful/api/neoforge/gui/ticker/ForgeGuiTickHandler.java:48-58 | the runs fall on `first, first + period, ...`, where `first = max(1, initialDelay)` and `period = max(1, repeatDelay)`; none happens before `first`, and the last run lies less than one period back |
| GuiTicker.DefaultsRunEveryTick | neo21/src/main/java/com/envyful/api/neoforge/gui/ticker/ForgeGuiTickHandler.java:57-64 | with the builder's defaults the handler runs on every tick |
| ChatColour.RootLowerFirst | neo21/src/main/java/com/envyful/api/neoforge/chat/UtilChatColour.java:145 | the first character of the root-locale lower case, for every character whose lower case starts with an ASCII character; `GetByCode`, `GetByCodeIgnoresCase` and `GetByCodeKelvinSign` state what the code table does with it |
| ChatColour.GetByCode | neo21/src/main/java/com/envyful/api/neoforge/chat/UtilChatColour.java:144-172 | a character selects a formatting exactly when its root-locale lower case is one of the sixteen colour codes or six style codes; every other character gives null |
| ChatColour.GetByCodeIgnoresCase | neo21/src/main/java/com/envyful/api/neoforge/chat/UtilChatColour.java:144-145 | a code and its lower case select the same formatting |
| ChatColour.GetByCodeColours | neo21/src/main/java/com/envyful/api/neoforge/chat/UtilChatColour.java:148-163 | '0'..'9' and 'a'..'f' select BLACK .. WHITE in order |
| ChatColour.ColoursFrom0 | neo21/src/main/java/com/envyful/api/neoforge/chat/UtilChatColour.java:148-151 | '0'..'3' select BLACK, DARK_BLUE, DARK_GREEN and DARK_AQUA |
| ChatColour.ColoursFrom4 | neo21/src/main/java/com/envyful/api/neoforge/chat/UtilChatColour.java:152-155 | '4'..'7' select DARK_RED, DARK_PURPLE, GOLD and GRAY |
| ChatColour.ColoursFrom8 | neo21/src/main/java/com/envyful/api/neoforge/chat/UtilChatColour.java:156-159 | '8', '9', 'a' and 'b' select DARK_GRAY, BLUE, GREEN and AQUA |
| ChatColour.ColoursFrom12 | neo21/src/main/java/com/envyful/api/neoforge/chat/UtilChatColour.java:160-163 | 'c'..'f' select RED, LIGHT_PURPLE, YELLOW and WHITE |
| ChatColour.GetByCodeUpperColours | neo21/src/main/java/com/envyful/api/neoforge/chat/UtilChatColour.java:145-163 | 'A'..'F' select the same colours as 'a'..'f' |
| ChatColour.GetByCodeStyles | neo21/src/main/java/com/envyful/api/neoforge/chat/UtilChatColour.java:164-169 | 'k', 'l', 'm', 'n', 'o' and 'r' select OBFUSCATED, BOLD, STRIKETHROUGH, UNDERLINE, ITALIC and RESET |
| ChatColour.StylesFrom0 | neo21/src/main/java/com/envyful/api/neoforge/chat/UtilChatColour.java:164-166 | 'k', 'l' and 'm' select OBFUSCATED, BOLD and STRIKETHROUGH |
| ChatColour.StylesFrom3 | neo21/src/main/java/com/envyful/api/neoforge/chat/UtilChatColour.java:167-169 | 'n', 'o' and 'r' select UNDERLINE, ITALIC and RESET |
| ChatColour.GetByCodeUpperStyles | neo21/src/main/java/com/envyful/api/neoforge/chat/UtilChatColour.java:145-169 | 'K', 'L', 'M', 'N', 'O' and 'R' select the same styles as their lower case |
| ChatColour.GetByCodeKelvinSign | neo21/src/main/java/com/envyful/api/neoforge/chat/UtilChatColour.java:145 | the Kelvin sign lowers to 'k' under the root locale and so selects OBFUSCATED |
| ChatColour.IsCodeChar | neo21/src/main/java/com/envyful/api/neoforge/chat/UtilChatColour.java:30 | the class `[0-9A-FK-ORX]` under `(?i)`: an ASCII digit, or a letter from a-f, k-o, r or x in either case; `StripLeadingCode` states that each such code is removed |
| ChatColour.MatchLength | neo21/src/main/java/com/envyful/api/neoforge/chat/UtilChatColour.java:30 | a match of the strip pattern at the front has length 0 (none), 2, 5 or 8, and starts with '&' |
| ChatColour.Strip | neo21/src/main/java/com/envyful/api/neoforge/chat/UtilChatColour.java:187 | removing the matches never makes the text longer |
| ChatColour.StripColor | neo21/src/main/java/com/envyful/api/neoforge/chat/UtilChatColour.java:182-188 | `stripColor` of null is null; otherwise the result is never longer than the input |
| ChatColour.StripWithoutAmpersand | neo21/src/main/java/com/envyful/api/neoforge/chat/UtilChatColour.java:187 | text without '&' is returned unchanged |
| ChatColour.StripUnchangedIff | neo21/src/main/java/com/envyful/api/neoforge/chat/UtilChatColour.java:187 | text is left unchanged exactly when no match of the pattern starts at any position |
| ChatColour.StripLeadingCode | neo21/src/main/java/com/envyful/api/neoforge/chat/UtilChatColour.java:30 | '&' followed by any of 0-9, a-f, k-o, r or x, in either case, is removed, and the rest is scanned on its own |
| ChatColour.StripSinglePass | neo21/src/main/java/com/envyful/api/neoforge/chat/UtilChatColour.java:187 | removal is a single pass: "&&aa" becomes "&a", which a second pass would empty |
| ChatColour.StripKeepsPlain | neo21/src/main/java/com/envyful/api/neoforge/chat/UtilChatColour.java:187 | a stretch of text without '&' is kept as it is, and the text after it is stripped on its own |
| ChatColour.StripHexSix | neo21/src/main/java/com/envyful/api/neoforge/chat/UtilChatColour.java:30 | '&#' followed by six hex digits, in either case, is removed as one match, whatever follows |
| ChatColour.StripHexThree | neo21/src/main/java/com/envyful/api/neoforge/chat/UtilChatColour.java:30 | '&#' followed by three hex digits and not by three more is removed as a five-character match, whatever follows |
| ChatColour.StripHexShort | neo21/src/main/java/com/envyful/api/neoforge/chat/UtilChatColour.java:30 | '&#' followed by fewer than three hex digits and then a non-hex character, or the end, is no match: '&#' and the digits stay |
| Placeholders.SimpleInt | commons/src/main/java/com/envyful/api/text/Placeholder.java:64-66 | the int overload is a simple placeholder whose replacement parses back to the number |
| Placeholders.SimpleLong | commons/src/main/java/com/envyful/api/text/Placeholder.java:76-78 | the long overload is a simple placeholder whose replacement parses back to the number |
| Placeholders.ReplaceAll | commons/src/main/java/com/envyful/api/text/Placeholder.java:52-54 | `String.replace` for a non-empty key: each occurrence, scanned left to right, is replaced, and the scan resumes after it. The lemmas below state its meaning: no key means no change, the length change, the identity replacement and the leading-occurrence rule |
| Placeholders.ReplaceAllWithoutKey | commons/src/main/java/com/envyful/api/text/Placeholder.java:52-54 | a line that does not contain the key is unchanged |
| Placeholders.ReplaceAllLength | commons/src/main/java/com/envyful/api/text/Placeholder.java:52-54 | each replaced occurrence changes the length by `|result| - |key|` |
| Placeholders.ReplaceAllByKey | commons/src/main/java/com/envyful/api/text/Placeholder.java:52-54 | replacing the key by itself changes nothing |
| Placeholders.ReplaceAllLeading | commons/src/main/java/com/envyful/api/text/Placeholder.java:52-54 | a leading occurrence is replaced, and the scan resumes after it |
| Placeholders.ReplaceAllSinglePass | commons/src/main/java/com/envyful/api/text/Placeholder.java:52-54 | an example of the one-pass scan that `ReplaceAllLeading` states in general: `"aabb"` with key `"ab"` and an empty replacement gives `"ab"`, which is not replaced again |
| Placeholders.MultiLineExpands | commons/src/main/java/com/envyful/api/text/Placeholder.java:144-152 | `multiLine` gives its lines for a line equal to the key and the line itself for any other line, including one that merely contains the key |
| KeyedMaps.SimpleKey | commons/src/main/java/com/envyful/api/type/map/Key.java:18-40 | the two-argument key keeps its name and value type, and its `replace` returns every string unchanged |
| KeyedMaps.KeyEqualsIsIdEquality | commons/src/main/java/com/envyful/api/type/map/Key.java:42-53 | `equals` holds exactly when name and value type agree, ignoring the placeholder; it is reflexive and symmetric, and equal keys have equal hash codes |
| KeyedMaps.PutEntry | commons/src/main/java/com/envyful/api/type/map/KeyedMap.java:30-32 | `HashMap.put` on the backing map: the key's identity maps to the value, keeping an equal key already stored. `GetAfterPut` and `PutChangesOnlyItsKey` state its effect |
| KeyedMaps.Lookup | commons/src/main/java/com/envyful/api/type/map/KeyedMap.java:34-41 | `get`: the value stored under the key's identity, or null; `GetAfterPut` and `GetNeverPut` relate it to `put` |
| KeyedMaps.ReplaceAlong | commons/src/main/java/com/envyful/api/type/map/KeyedMap.java:47-54 | `replace` along one iteration order: the string goes through each entry's placeholder, in order. `ReplaceEmpty` and `ReplaceIdentityKeys` state when it is the identity |
| KeyedMaps.KeyedMap.constructor | commons/src/main/java/com/envyful/api/type/map/KeyedMap.java:22-24 | a new keyed map is empty and modifiable |
| KeyedMaps.KeyedMap.Empty | commons/src/main/java/com/envyful/api/type/map/KeyedMap.java:18 | the `EMPTY` map is empty and rejects `put` |
| KeyedMaps.KeyedMap.Put | commons/src/main/java/com/envyful/api/type/map/KeyedMap.java:30-32 | `put` stores the value under the key's identity, keeping an equal key already present; on the unmodifiable map it throws and nothing changes |
| KeyedMaps.KeyedMap.Get | commons/src/main/java/com/envyful/api/type/map/KeyedMap.java:34-41 | `get` is the stored value, or null when the key was never put |
| KeyedMaps.KeyedMap.ReplaceAll | commons/src/main/java/com/envyful/api/type/map/KeyedMap.java:47-54 | `replace` passes the string through every entry's placeholder, once each, in the map's iteration order; an empty map changes nothing |
| KeyedMaps.GetAfterPut | commons/src/main/java/com/envyful/api/type/map/KeyedMap.java:30-41 | after `put(k, v)`, `get` of any key equal to `k` is `v`, and `get` of any other key is as before |
| KeyedMaps.PutChangesOnlyItsKey | commons/src/main/java/com/envyful/api/type/map/KeyedMap.java:30-32 | `put` touches only its own entry, and re-putting an equal key keeps the first key's placeholder |
| KeyedMaps.PutEach | commons/src/main/java/com/envyful/api/type/map/KeyedMap.java:30-32 | a history of `put` calls, applied in order; `GetNeverPut` states what `get` sees after it |
| KeyedMaps.GetNeverPut | commons/src/main/java/com/envyful/api/type/map/KeyedMap.java:30-41 | after any history of `put`s of keys none of which equals `k`, `get(k)` is what it was; from a new map it is null |
| KeyedMaps.ReplaceEmpty | commons/src/main/java/com/envyful/api/type/map/KeyedMap.java:47-54 | with no entries `replace` is the identity |
| KeyedMaps.ReplaceIdentityKeys | commons/src/main/java/com/envyful/api/type/map/KeyedMap.java:47-54 | when every stored key leaves strings unchanged, `replace` is the identity in every iteration order |
| KeyedMaps.SimpleKeysReplaceNothing | commons/src/main/java/com/envyful/api/type/map/Key.java:18-22 | a map holding a two-argument key leaves `replace` the identity |
| PlayerManagers.PlayerManager.constructor | commons/src/main/java/com/envyful/api/player/manager/AbstractPlayerManager.java:19-33 | the cache starts empty and the name store null |
| PlayerManagers.PlayerManager.GetPlayerById | commons/src/main/java/com/envyful/api/player/manager/AbstractPlayerManager.java:45-51 | a null UUID gives null; otherwise the cached player for the UUID, or null |
| PlayerManagers.PlayerManager.GetPlayer | commons/src/main/java/com/envyful/api/player/manager/AbstractPlayerManager.java:36-42 | a null player gives null; otherwise the lookup of `uuidGetter(player)` |
| PlayerManagers.PlayerManager.GetOnlinePlayer | commons/src/main/java/com/envyful/api/player/manager/AbstractPlayerManager.java:54-62 | the result is a cached player named exactly `username`, and it is null only when there is none |
| PlayerManagers.PlayerManager.GetOnlinePlayerCaseInsensitive | commons/src/main/java/com/envyful/api/player/manager/AbstractPlayerManager.java:65-73 | the same lookup using `equalsIgnoreCase` |
| PlayerManagers.PlayerManager.GetOnlinePlayers | commons/src/main/java/com/envyful/api/player/manager/AbstractPlayerManager.java:76-78 | the list holds exactly the cached players, one per UUID |
| PlayerManagers.PlayerManager.GetNameStore | commons/src/main/java/com/envyful/api/player/manager/AbstractPlayerManager.java:82-84 | returns the name store |
| PlayerManagers.PlayerManager.SetNameStore | commons/src/main/java/com/envyful/api/player/manager/AbstractPlayerManager.java:87-89 | replaces the name store, so that `getNameStore` then returns it |
| PlayerManagers.ExactMatchImpliesIgnoreCase | commons/src/main/java/com/envyful/api/player/manager/AbstractPlayerManager.java:54-73 | whenever the exact lookup finds a player, the case-insensitive one finds a player too |
| SaveManagers.WithInner | commons/src/main/java/com/envyful/api/player/save/AbstractSaveManager.java:48 | `computeIfAbsent` adds an empty inner map for a missing class and leaves every existing class as it was |
| SaveManagers.SaveManager.constructor | commons/src/main/java/com/envyful/api/player/save/AbstractSaveManager.java:20-33 | a null error handler keeps the logging default, and any other handler replaces it; both maps start empty |
| SaveManagers.SaveManager.GetErrorHandler | commons/src/main/java/com/envyful/api/player/save/AbstractSaveManager.java:36-38 | returns the error handler |
| SaveManagers.SaveManager.RegisterAttribute | commons/src/main/java/com/envyful/api/player/save/AbstractSaveManager.java:41-44 | a null attribute is rejected and changes nothing; any other is stored under its attribute class, replacing an earlier entry |
| SaveManagers.SaveManager.GetSharedAttribute | commons/src/main/java/com/envyful/api/player/save/AbstractSaveManager.java:47-49 | the lookup in the class's inner map, which is created if it was missing |
| SaveManagers.SaveManager.AddSharedAttribute | commons/src/main/java/com/envyful/api/player/save/AbstractSaveManager.java:52-54 | the attribute is stored in the inner map of its own class |
| SaveManagers.GetAfterAdd | commons/src/main/java/com/envyful/api/player/save/AbstractSaveManager.java:47-54 | after an add, the lookup of that key in that class gives the attribute, and other keys look up as before |
| SaveManagers.AddLeavesOtherClasses | commons/src/main/java/com/envyful/api/player/save/AbstractSaveManager.java:52-54 | adding under one class leaves every other class's inner map unchanged |
| SaveManagers.ReAddReplaces | commons/src/main/java/com/envyful/api/player/save/AbstractSaveManager.java:52-54 | re-adding under the same key replaces the entry |
| SaveManagers.MissingLookupLeavesEmptyInner | commons/src/main/java/com/envyful/api/player/save/AbstractSaveManager.java:47-49 | a lookup in a class with no inner map gives null and leaves an empty inner map behind |
| SerializerRegistries.SerializerRegistry.constructor | commons/src/main/java/com/envyful/api/config/ConfigTypeSerializerRegistry.java:14 | the registry starts empty |
| SerializerRegistries.SerializerRegistry.Register | commons/src/main/java/com/envyful/api/config/ConfigTypeSerializerRegistry.java:16-18 | the serializer is stored under its own class, replacing an earlier one |
| SerializerRegistries.SerializerRegistry.Get | commons/src/main/java/com/envyful/api/config/ConfigTypeSerializerRegistry.java:20-22 | `get` gives the registered serializer, or null for an unregistered class |
| SerializerRegistries.SerializerRegistry.GetAll | commons/src/main/java/com/envyful/api/config/ConfigTypeSerializerRegistry.java:24-26 | `getAll` is a copy with one serializer per registered class, holding exactly the registered serializers |
| SerializerRegistries.RegisterThenGet | commons/src/main/java/com/envyful/api/config/ConfigTypeSerializerRegistry.java:16-22 | after `register(s)`, `get(s.clazz())` is `s`, and every other class reads as before |
| SerializerRegistries.ReRegisterReplaces | commons/src/main/java/com/envyful/api/config/ConfigTypeSerializerRegistry.java:17 | registering twice for one class keeps only the second serializer and does not grow the registry |
| ConfigItems.FromPermissibleItem | forge16/src/main/java/com/envyful/api/forge/config/UtilConfigItem.java:48-70 | a disabled item gives null, and a permitted one the main item. Otherwise the else item is used exactly when it exists and is enabled. Permission is granted when it is not required, missing, empty or "none" in any case, and otherwise the platform decides |
| ConfigItems.ParseBasic | forge16/src/main/java/com/envyful/api/forge/config/UtilConfigItem.java:172-208 | a basic value never parses to a compound or a list |
| ConfigItems.ParseNBT | forge16/src/main/java/com/envyful/api/forge/config/UtilConfigItem.java:138-170 | `parseNBT`: "nbt" in any case builds a compound, "list" a list, anything else the basic parse, the key always kept. `ParseNBTDispatch`, `ParseNBTKeepsKey` and `ParseNBTEntry` state this |
| ConfigItems.ParseCompound | forge16/src/main/java/com/envyful/api/forge/config/UtilConfigItem.java:139-151 | the "nbt" loop over the first `k` sub-entries, stopping at the first failure; `CompoundHoldsEachSubEntry` states the compound it builds |
| ConfigItems.ParseList | forge16/src/main/java/com/envyful/api/forge/config/UtilConfigItem.java:153-167 | the "list" loop over the first `k` sub-entries, stopping at the first failure; `ListWrapsEachSubEntry` states the list it builds |
| ConfigItems.ParseNBTEntry | forge16/src/main/java/com/envyful/api/forge/config/UtilConfigItem.java:138-170 | the recursive `parseNBT` with its two loops computes the entry's parse |
| ConfigItems.FillCompound | forge16/src/main/java/com/envyful/api/forge/config/UtilConfigItem.java:140-150 | the "nbt" loop puts every parsed sub-entry into the compound, stopping at the first failure |
| ConfigItems.FillList | forge16/src/main/java/com/envyful/api/forge/config/UtilConfigItem.java:154-166 | the "list" loop adds every parsed sub-entry as a one-entry compound, stopping at the first failure |
| ConfigItems.ParseNBTKeepsKey | forge16/src/main/java/com/envyful/api/forge/config/UtilConfigItem.java:138-170 | the returned key is always the entry's own key |
| ConfigItems.CompoundHoldsEachSubEntry | forge16/src/main/java/com/envyful/api/forge/config/UtilConfigItem.java:139-151 | a built compound holds exactly the sub-entries' keys, each mapped to that sub-entry's parse |
| ConfigItems.ListWrapsEachSubEntry | forge16/src/main/java/com/envyful/api/forge/config/UtilConfigItem.java:153-167 | a built list has one single-entry compound `{subKey: parsed}` per sub-entry, in order |
| ConfigItems.ParseNBTDispatch | forge16/src/main/java/com/envyful/api/forge/config/UtilConfigItem.java:138-170 | type "nbt" (any case) builds a compound and "list" builds a list; any other type is the entry's basic parse |
| ConfigItems.ParseBasicRoundTrip | forge16/src/main/java/com/envyful/api/forge/config/UtilConfigItem.java:181-200 | for int/integer, long, byte and short (any case), a number in the type's range, printed in decimal, parses back into that type's tag |
| ConfigItems.ParseBasicMalformed | forge16/src/main/java/com/envyful/api/forge/config/UtilConfigItem.java:181-200 | numeric data throws `NumberFormatException` when it is empty, or is not digits after an optional sign (a lone sign included), or is digits whose signed value is outside the type's range |
| ConfigItems.ByteOutOfRange | forge16/src/main/java/com/envyful/api/forge/config/UtilConfigItem.java:189-191 | an example of the range rule: a byte of 128 does not parse |
| ConfigItems.ParseBasicText | forge16/src/main/java/com/envyful/api/forge/config/UtilConfigItem.java:201-204 | "string" and every unknown type keep the data as a string tag and never fail |
| ConfigItems.ParseBasicPlaceholders | forge16/src/main/java/com/envyful/api/forge/config/UtilConfigItem.java:173-177 | placeholders are applied to the data only when the placeholder list is non-empty |
| ConfigRewards.DefaultReward | spigot/src/main/java/com/envyful/api/spigot/config/ConfigReward.java:22-35 | the no-argument reward has the default display name, and every other field is null |
| ConfigRewards.PlaceholdersFor | spigot/src/main/java/com/envyful/api/spigot/config/ConfigReward.java:50-53 | with a player the placeholders grow by exactly one, the new last being `%player%` to the player's name; without one they are unchanged |
| ConfigRewards.Execute | spigot/src/main/java/com/envyful/api/spigot/config/ConfigReward.java:49-62 | console commands run exactly when the list is non-null and non-empty. Messages are sent exactly when there is a player and the list is non-null and non-empty. Commands come first, and both get the extended placeholders |
| ConfigRewards.ExecuteWithoutPlayer | spigot/src/main/java/com/envyful/api/spigot/config/ConfigReward.java:45-47 | `execute(placeholders)` sends no messages and passes the placeholders unchanged |
| ConfigRewards.PlayerPlaceholderNamesThePlayer | spigot/src/main/java/com/envyful/api/spigot/config/ConfigReward.java:52 | the added placeholder turns `%player%` into the player's name |
| ConfigRewards.RewardBuilder.constructor | spigot/src/main/java/com/envyful/api/spigot/config/ConfigReward.java:78-83 | the builder starts with the default name, no item and empty lists |
| ConfigRewards.RewardBuilder.DisplayName | spigot/src/main/java/com/envyful/api/spigot/config/ConfigReward.java:85-88 | sets the display name |
| ConfigRewards.RewardBuilder.DisplayItem | spigot/src/main/java/com/envyful/api/spigot/config/ConfigReward.java:90-93 | sets the display item |
| ConfigRewards.RewardBuilder.Commands | spigot/src/main/java/com/envyful/api/spigot/config/ConfigReward.java:99-102 | appends the commands; a null list throws and changes nothing |
| ConfigRewards.RewardBuilder.Messages | spigot/src/main/java/com/envyful/api/spigot/config/ConfigReward.java:108-111 | appends the messages; a null list throws and changes nothing |
| ConfigRewards.RewardBuilder.Build | spigot/src/main/java/com/envyful/api/spigot/config/ConfigReward.java:27-32 | the reward takes every field of the builder |
| ConfigRewards.ToBuilder | spigot/src/main/java/com/envyful/api/spigot/config/ConfigReward.java:64-70 | `toBuilder` gives a fresh builder holding the reward's fields, and it throws exactly when a list is null |
| ConfigRewards.Rebuild | spigot/src/main/java/com/envyful/api/spigot/config/ConfigReward.java:27-70 | `toBuilder().build()` gives back the same reward when both lists are non-null, and otherwise throws |
| CloseConsumers.Handle | forge20/src/main/java/com/envyful/api/forge/gui/close/ForgeCloseConsumer.java:32-51 | nothing is scheduled exactly when the predicate fails. Otherwise exactly one call is made: `runAsync` or `runSync` for a delay of at most 0, or, for a positive delay, `runLater` in `delay * 50` milliseconds when async and in `delay` ticks when sync. The millisecond delay fits a long |
| CloseConsumers.DelayedIffPositive | forge20/src/main/java/com/envyful/api/forge/gui/close/ForgeCloseConsumer.java:37-50 | a passing close is delayed exactly when the delay is positive, and goes through the async scheduler exactly when async |
| CloseConsumers.DefaultsRunAsyncAtOnce | forge20/src/main/java/com/envyful/api/forge/gui/close/ForgeCloseConsumer.java:55-58 | with the builder's defaults every close runs the handler at once, asynchronously |
| CloseConsumers.CloseConsumerBuilder.constructor | forge20/src/main/java/com/envyful/api/forge/gui/close/ForgeCloseConsumer.java:55-60 | the defaults are delay 0, an always-true predicate, a no-op handler and async |
| CloseConsumers.CloseConsumerBuilder.DelayTicks | forge20/src/main/java/com/envyful/api/forge/gui/close/ForgeCloseConsumer.java:63-66 | sets the delay |
| CloseConsumers.CloseConsumerBuilder.Predicate | forge20/src/main/java/com/envyful/api/forge/gui/close/ForgeCloseConsumer.java:69-72 | sets the predicate |
| CloseConsumers.CloseConsumerBuilder.Handler | forge20/src/main/java/com/envyful/api/forge/gui/close/ForgeCloseConsumer.java:75-78 | sets the handler |
| CloseConsumers.CloseConsumerBuilder.Async | forge20/src/main/java/com/envyful/api/forge/gui/close/ForgeCloseConsumer.java:81-84 | sets the async flag |
| CloseConsumers.CloseConsumerBuilder.Build | forge20/src/main/java/com/envyful/api/forge/gui/close/ForgeCloseConsumer.java:87-89 | the consumer takes the builder's four settings |
| ConsoleMessages.Flatten | neo21/src/main/java/com/envyful/api/neoforge/platform/ConsoleMessageable.java:30-45 | the components `message(...)` sends, in order, up to the first unsupported argument, a list counting as its elements. `FlattenSplit`, `FlattenStep`, `ListIsTransparent`, `UnsupportedStops` and `SupportedSendsAll` state its meaning |
| ConsoleMessages.ConsoleMessageable.constructor | neo21/src/main/java/com/envyful/api/neoforge/platform/ConsoleMessageable.java:19-23 | keeps the source; nothing has been sent |
| ConsoleMessages.ConsoleMessageable.GetParent | neo21/src/main/java/com/envyful/api/neoforge/platform/ConsoleMessageable.java:25-28 | returns the constructor's source |
| ConsoleMessages.ConsoleMessageable.GetName | neo21/src/main/java/com/envyful/api/neoforge/platform/ConsoleMessageable.java:52-55 | the name is "Console" |
| ConsoleMessages.ConsoleMessageable.GetUniqueId | neo21/src/main/java/com/envyful/api/neoforge/platform/ConsoleMessageable.java:47-50 | the id is the nil UUID |
| ConsoleMessages.ConsoleMessageable.Message | neo21/src/main/java/com/envyful/api/neoforge/platform/ConsoleMessageable.java:30-45 | `message` sends, in order, the flattening of its arguments up to the first unsupported one, and throws exactly when there is one |
| ConsoleMessages.ConsoleMessageable.SendOne | neo21/src/main/java/com/envyful/api/neoforge/platform/ConsoleMessageable.java:33-43 | one argument: a string is sent parsed and a component as it is, a list item by item, and any other type throws |
| ConsoleMessages.FlattenSplit | neo21/src/main/java/com/envyful/api/neoforge/platform/ConsoleMessageable.java:32-44 | sending `a + b` is sending `a`, then `b` unless `a` threw |
| ConsoleMessages.FlattenStep | neo21/src/main/java/com/envyful/api/neoforge/platform/ConsoleMessageable.java:32-44 | each argument extends what was sent by its own flattening, and one that throws ends the walk |
| ConsoleMessages.ListIsTransparent | neo21/src/main/java/com/envyful/api/neoforge/platform/ConsoleMessageable.java:37-40 | a list argument sends exactly what its elements would, in order, wherever it stands |
| ConsoleMessages.UnsupportedStops | neo21/src/main/java/com/envyful/api/neoforge/platform/ConsoleMessageable.java:41-43 | an unsupported argument throws after everything before it has been sent, and nothing after it is sent |
| ConsoleMessages.SupportedSendsAll | neo21/src/main/java/com/envyful/api/neoforge/platform/ConsoleMessageable.java:32-44 | without unsupported arguments nothing throws, and every string and component is sent once |
| ConsoleMessages.SendsOneEach | neo21/src/main/java/com/envyful/api/neoforge/platform/ConsoleMessageable.java:33-36 | a string is parsed before it is sent, and a component is sent unchanged |
| PlatformCommands.CheckPermission | commons/src/main/java/com/envyful/api/command/PlatformCommand.java:61-63 | `checkPermission`: a missing predicate lets everyone through, otherwise the predicate decides; `ExecuteSyncResolves` and `AccessibleAliasesMembers` are stated in its terms |
| PlatformCommands.Fits | commons/src/main/java/com/envyful/api/command/PlatformCommand.java:115-127 | `fitsCommand`: the token equals the name or one of the aliases, ignoring case; `FirstFitFrom` is stated in its terms |
| PlatformCommands.ExecuteSync | commons/src/main/java/com/envyful/api/command/PlatformCommand.java:79-103 | `executeSync`: the node's own permission first, then the first fitting sub-command on the tail, then the executor on all tokens, then the description. `ExecuteSyncResolves` and the lemmas after it state its meaning |
| PlatformCommands.FirstFit | commons/src/main/java/com/envyful/api/command/PlatformCommand.java:85-92 | the chosen sub-command fits the token, and none before it in list order does; there is no choice only when none fits |
| PlatformCommands.FirstFitFrom | commons/src/main/java/com/envyful/api/command/PlatformCommand.java:115-127 | the same, searching from a position; fitting means the name or an alias equals the token ignoring case |
| PlatformCommands.ExecuteSyncResolves | commons/src/main/java/com/envyful/api/command/PlatformCommand.java:79-103 | dispatch is denied exactly when some node on the token path refuses permission; otherwise the node the tokens lead to acts on the tokens left for it |
| PlatformCommands.ExecutedOnlyWhenPermitted | commons/src/main/java/com/envyful/api/command/PlatformCommand.java:79-97 | an executor or a description runs only when permission held at every node on the path |
| PlatformCommands.DeniedSendsOnlyNoPermission | commons/src/main/java/com/envyful/api/command/PlatformCommand.java:80-83 | a failing permission sends only the no-permission lines (none without a provider) and runs nothing else |
| PlatformCommands.SubCommandTakesTail | commons/src/main/java/com/envyful/api/command/PlatformCommand.java:85-92 | once permitted, the first fitting sub-command receives the tokens after the first |
| PlatformCommands.ExecutorGetsAllTokens | commons/src/main/java/com/envyful/api/command/PlatformCommand.java:94-97 | with no fitting sub-command, a present executor receives the tokens unchanged and the description is not sent |
| PlatformCommands.DescribedOnlyWithoutExecutor | commons/src/main/java/com/envyful/api/command/PlatformCommand.java:99-102 | the description is sent exactly when the path is permitted and the target has no executor but has a provider; nothing happens exactly when it has neither |
| PlatformCommands.ExecuteRejectsNull | commons/src/main/java/com/envyful/api/command/PlatformCommand.java:65-77 | a null sender or null tokens does nothing; otherwise `execute` is `executeSync` |
| PlatformCommands.AccessibleAliases | commons/src/main/java/com/envyful/api/command/PlatformCommand.java:182-192 | the aliases of the permitted sub-commands, in list order; `AccessibleAliasesMembers` and `AccessibleAliasesAppend` characterise it |
| PlatformCommands.AccessibleAliasesAppend | commons/src/main/java/com/envyful/api/command/PlatformCommand.java:182-192 | the aliases offered for two lists of sub-commands are those of the first followed by those of the second |
| PlatformCommands.AccessibleAliasesMembers | commons/src/main/java/com/envyful/api/command/PlatformCommand.java:182-192 | an alias is offered exactly when some permitted sub-command carries it |
| PlatformCommands.GetAccessibleSubCommands | commons/src/main/java/com/envyful/api/command/PlatformCommand.java:182-192 | the loop collects the aliases of the permitted sub-commands, in order |
| PlatformCommands.GetPlayers | commons/src/main/java/com/envyful/api/command/PlatformCommand.java:172-178 | `getPlayers`: an empty name gives every online name, any other name the result of the platform matcher; `FallbackOrder` uses it |
| PlatformCommands.Fallback | commons/src/main/java/com/envyful/api/command/PlatformCommand.java:155-168 | an empty computed list becomes the aliases of the permitted sub-commands; if still empty, the online names with no tokens, else `getPlayers(args[0])`. `FallbackOrder` states this |
| PlatformCommands.TabCompletions | commons/src/main/java/com/envyful/api/command/PlatformCommand.java:129-170 | a fitting sub-command completes the tail, otherwise the tab handler answers, and the fallback applies to either result. `TabCompletionsDelegate`, `TabCompletionsUseHandler`, `FallbackOrder` and `TabCompletionsOnlineNames` state its meaning |
| PlatformCommands.GetTabCompletions | commons/src/main/java/com/envyful/api/command/PlatformCommand.java:129-170 | a null sender or null tokens gives the empty list; otherwise the completions of the resolver |
| PlatformCommands.TabCompletionsDelegate | commons/src/main/java/com/envyful/api/command/PlatformCommand.java:142-150 | a non-empty result from the fitting sub-command, completing the tail, is returned as it is, with no permission check |
| PlatformCommands.TabCompletionsUseHandler | commons/src/main/java/com/envyful/api/command/PlatformCommand.java:151-154 | with no fitting sub-command, a non-empty tab-handler result is returned |
| PlatformCommands.FallbackOrder | commons/src/main/java/com/envyful/api/command/PlatformCommand.java:155-178 | an empty result becomes the aliases of the permitted sub-commands. If that is still empty, it becomes the online names when there are no tokens, and `getPlayers(args[0])` otherwise. `getPlayers("")` is every online name |
| PlatformCommands.TabCompletionsOnlineNames | commons/src/main/java/com/envyful/api/command/PlatformCommand.java:155-168 | a leaf with no handler completes an empty token list with the online names |
| PlatformCommands.CommandBuilder.constructor | commons/src/main/java/com/envyful/api/command/PlatformCommand.java:200-210 | the builder starts with every field unset and empty lists |
| PlatformCommands.CommandBuilder.Name | commons/src/main/java/com/envyful/api/command/PlatformCommand.java:212-215 | sets the name |
| PlatformCommands.CommandBuilder.DescriptionProvider | commons/src/main/java/com/envyful/api/command/PlatformCommand.java:217-220 | sets the description provider |
| PlatformCommands.CommandBuilder.PermissionCheck | commons/src/main/java/com/envyful/api/command/PlatformCommand.java:222-225 | sets the permission check |
| PlatformCommands.CommandBuilder.NoPermissionProvider | commons/src/main/java/com/envyful/api/command/PlatformCommand.java:227-230 | sets the no-permission provider |
| PlatformCommands.CommandBuilder.Aliases | commons/src/main/java/com/envyful/api/command/PlatformCommand.java:232-235 | appends the aliases |
| PlatformCommands.CommandBuilder.Executor | commons/src/main/java/com/envyful/api/command/PlatformCommand.java:237-240 | sets the executor |
| PlatformCommands.CommandBuilder.TabHandler | commons/src/main/java/com/envyful/api/command/PlatformCommand.java:242-245 | sets the tab handler |
| PlatformCommands.CommandBuilder.SubCommands | commons/src/main/java/com/envyful/api/command/PlatformCommand.java:247-250 | appends the sub-commands |
| PlatformCommands.CommandBuilder.Build | commons/src/main/java/com/envyful/api/command/PlatformCommand.java:252-256 | the node carries every field of the builder |
| AnnotationParser.FirstWhere | commons/src/main/java/com/envyful/api/command/annotate/AnnotationCommandParser.java:196-212 | the position found is the first from `from` whose element qualifies; none is found only when no element qualifies |
| AnnotationParser.GetCommandData | commons/src/main/java/com/envyful/api/command/annotate/AnnotationCommandParser.java:75-87 | succeeds exactly when `@Command` is present with at least one alias, and gives those aliases |
| AnnotationParser.FindCommandProcessor | commons/src/main/java/com/envyful/api/command/annotate/AnnotationCommandParser.java:196-212 | the processor is the first `@CommandProcessor` method, and the lookup fails exactly when that method is not public |
| AnnotationParser.SplitArgument | commons/src/main/java/com/envyful/api/command/annotate/AnnotationCommandParser.java:269-282 | the annotation it finds is always an `@Argument` |
| AnnotationParser.FindTabHandlerSenderType | commons/src/main/java/com/envyful/api/command/annotate/AnnotationCommandParser.java:459-478 | the sender type is the type of the first handler parameter carrying `@Sender`, and it is found exactly when there is a handler and that type is registered |
| AnnotationParser.ShouldCaptureArgs | commons/src/main/java/com/envyful/api/command/annotate/AnnotationCommandParser.java:224-244 | the index loop computes the capture decision or its failure |
| AnnotationParser.GetArgumentAnnotationAndRemaining | commons/src/main/java/com/envyful/api/command/annotate/AnnotationCommandParser.java:269-282 | the loop computes the `@Argument` and the remaining annotations |
| AnnotationParser.BuildArguments | commons/src/main/java/com/envyful/api/command/annotate/AnnotationCommandParser.java:246-267 | the loop builds the argument list of the parameters after the sender and before any capture parameter, or fails as the first bad parameter does |
| AnnotationParser.GetHasTabCompleter | commons/src/main/java/com/envyful/api/command/annotate/AnnotationCommandParser.java:363-378 | the filled array is the completer-flag sequence |
| AnnotationParser.GetParameterTabCompleters | commons/src/main/java/com/envyful/api/command/annotate/AnnotationCommandParser.java:380-439 | the loop computes the completer entries of the parameters after the sender, or the first failure |
| AnnotationParser.ParseCommand | commons/src/main/java/com/envyful/api/command/annotate/AnnotationCommandParser.java:54-73 | `parseCommand`: command data, permission check, description, executor, sub-commands and tab handler, in that order, each failure ending the build. `ParseCommandStep`, `ParseCommandShape` and `ParseNeedsCommand` state its meaning |
| AnnotationParser.ParseSubCommands | commons/src/main/java/com/envyful/api/command/annotate/AnnotationCommandParser.java:296-320 | `getSubCommands`: each `@SubCommands` class in order is instantiated and parsed, failing at the first class that cannot be. `ParseSubCommandsStep`, `ParseSubCommandsIff` and `ParseSubCommandsInOrder` state this |
| AnnotationParser.GetPermissionCheck | commons/src/main/java/com/envyful/api/command/annotate/AnnotationCommandParser.java:89-128 | `getPermissionCheck`: `@Permissible`, else the first valid `@PermissionHandler`, else null. `PermissibleTakesPrecedence`, `PermissionHandlerRule` and `NoPermissionRuleAllowsAll` state it |
| AnnotationParser.GetDescriptionProvider | commons/src/main/java/com/envyful/api/command/annotate/AnnotationCommandParser.java:131-161 | `getDescriptionProvider`: `@Description`, else the first valid `@DescriptionHandler`, else null; `DescriptionRule` states it |
| AnnotationParser.GetCommandExecutor | commons/src/main/java/com/envyful/api/command/annotate/AnnotationCommandParser.java:163-194 | `getCommandExecutor`: null without a processor; otherwise the sender, capture and argument rules, each with its error. `ProcessorRules` states them |
| AnnotationParser.CaptureSpec | commons/src/main/java/com/envyful/api/command/annotate/AnnotationCommandParser.java:224-244 | `shouldCaptureArgs`: the first unannotated parameter after the sender captures the remaining tokens, and it must be a `String[]` and the last parameter; `CaptureRule` states both directions |
| AnnotationParser.CompleterFlags | commons/src/main/java/com/envyful/api/command/annotate/AnnotationCommandParser.java:363-378 | `getHasTabCompleter`: which positions have a `@Completable` parameter; `CompleterFlagsPositions` states its length and entries |
| AnnotationParser.ScanCompletable | commons/src/main/java/com/envyful/api/command/annotate/AnnotationCommandParser.java:388-398 | the annotation loop of `getParameterTabCompleters`: the other annotations kept, the last `@Completable` looked up, an unregistered one failing. `ScanCompletableMeaning` states this |
| AnnotationParser.CompleterEntry | commons/src/main/java/com/envyful/api/command/annotate/AnnotationCommandParser.java:386-429 | one parameter's completer entry: null when the position is not flagged or there is no completer, else the completer with its sender type. `EntriesShape` and `UnregisteredCompleterFails` state this |
| AnnotationParser.GetTabHandler | commons/src/main/java/com/envyful/api/command/annotate/AnnotationCommandParser.java:323-330 | `getTabHandler`: the processor, capture, flags, completer entries, handler method and its sender type, in that order, failing without a processor. `FlaggedPositionsHaveEntries` and `TabHandlerRules` state what it builds |
| AnnotationParser.TabHandlerApply | commons/src/main/java/com/envyful/api/command/annotate/AnnotationCommandParser.java:331-360 | the tab-handler lambda: at position `max(0, |args| - 1)` a flagged completer answers, otherwise the completion handler, and a failure gives the empty list. `TabHandlerRules` states this |
| AnnotationParser.ParseNeedsCommand | commons/src/main/java/com/envyful/api/command/annotate/AnnotationCommandParser.java:75-87 | without `@Command`, or with no alias in it, the build fails with that error |
| AnnotationParser.ParseSubCommandsStep | commons/src/main/java/com/envyful/api/command/annotate/AnnotationCommandParser.java:296-320 | each sub-command class must be instantiable and build before the rest are tried |
| AnnotationParser.ParseSubCommandsIff | commons/src/main/java/com/envyful/api/command/annotate/AnnotationCommandParser.java:296-320 | the sub-commands build exactly when every class is instantiable and builds |
| AnnotationParser.ParseSubCommandsInOrder | commons/src/main/java/com/envyful/api/command/annotate/AnnotationCommandParser.java:296-311 | a successful build gives one node per class, in declared order |
| AnnotationParser.ParseCommandStep | commons/src/main/java/com/envyful/api/command/annotate/AnnotationCommandParser.java:54-73 | the build succeeds exactly when every step does, and then assembles the node from their results and the fixed no-permission message |
| AnnotationParser.ParseCommandShape | commons/src/main/java/com/envyful/api/command/annotate/AnnotationCommandParser.java:54-73 | a built node is named by the first alias and carries all the aliases in order, the derived permission, description, executor and tab handler, and one built sub-command per class |
| AnnotationParser.PermissibleTakesPrecedence | commons/src/main/java/com/envyful/api/command/annotate/AnnotationCommandParser.java:89-94 | `@Permissible` takes precedence over any handler and defers to the platform's permission check |
| AnnotationParser.PermissionHandlerRule | commons/src/main/java/com/envyful/api/command/annotate/AnnotationCommandParser.java:96-128 | the first `@PermissionHandler` fails the build unless it takes (sender, `List`), and it permits only when its call returns true, so a throw means false |
| AnnotationParser.NoPermissionRuleAllowsAll | commons/src/main/java/com/envyful/api/command/annotate/AnnotationCommandParser.java:89-119 | with no permission rule the check is null, so the built node lets everyone through |
| AnnotationParser.DescriptionRule | commons/src/main/java/com/envyful/api/command/annotate/AnnotationCommandParser.java:131-161 | `@Description` wins; otherwise the first handler must take (sender, `List`), and a handler that throws describes nothing; with neither the provider is null |
| AnnotationParser.ProcessorRules | commons/src/main/java/com/envyful/api/command/annotate/AnnotationCommandParser.java:163-222 | without a processor the executor is null, yet the build fails. Otherwise a non-public processor, one with no parameters, a bad `@Sender` parameter or an unregistered sender type each fail with their own error |
| AnnotationParser.CaptureRule | commons/src/main/java/com/envyful/api/command/annotate/AnnotationCommandParser.java:224-244 | capture holds exactly when a parameter after the sender has no annotations. That parameter must then be the last one and of type `String[]`, and otherwise the build fails |
| AnnotationParser.SplitArgumentMeaning | commons/src/main/java/com/envyful/api/command/annotate/AnnotationCommandParser.java:269-282 | the split keeps the other annotations in order; an `@Argument` is found exactly when one is present, and it is the last one |
| AnnotationParser.ArgumentsShape | commons/src/main/java/com/envyful/api/command/annotate/AnnotationCommandParser.java:246-282 | the arguments build exactly when each parameter has an injector and an `@Argument`. There is then one argument per parameter, in order, with its injector, its other annotations and its default value |
| AnnotationParser.CompleterFlagsPositions | commons/src/main/java/com/envyful/api/command/annotate/AnnotationCommandParser.java:363-378 | the flag array has length `n + 1 (+ 1 with capture)`, and entry `i - 1` is set exactly when parameter `i` has `@Completable` |
| AnnotationParser.ScanCompletableMeaning | commons/src/main/java/com/envyful/api/command/annotate/AnnotationCommandParser.java:380-439 | an unregistered completer fails the scan, and the scan finds a completer exactly when a `@Completable` is present |
| AnnotationParser.EntriesShape | commons/src/main/java/com/envyful/api/command/annotate/AnnotationCommandParser.java:380-411 | there is one completer entry per parameter after the sender, set exactly when that parameter has `@Completable` |
| AnnotationParser.UnregisteredCompleterFails | commons/src/main/java/com/envyful/api/command/annotate/AnnotationCommandParser.java:380-439 | a `@Completable` naming an unregistered completer fails the build |
| AnnotationParser.FlaggedPositionsHaveEntries | commons/src/main/java/com/envyful/api/command/annotate/AnnotationCommandParser.java:323-411 | in a built tab handler every flagged position has its completer |
| AnnotationParser.TabHandlerRules | commons/src/main/java/com/envyful/api/command/annotate/AnnotationCommandParser.java:331-360 | the position is `max(0, args.length - 1)`. A flagged position returns only its completer's result; otherwise the completion handler's result is returned. No handler, or a handler that throws, gives the empty list |
| AnnotationParser.FirstCompletionHandler | commons/src/main/java/com/envyful/api/command/annotate/AnnotationCommandParser.java:441-457 | only the first `@CompletionHandler` is used, and a non-public one fails the build |
| AnnotationParser.FirstProcessor | commons/src/main/java/com/envyful/api/command/annotate/AnnotationCommandParser.java:196-212 | only the first `@CommandProcessor` is used, with its async flag |

## Left out

- Concurrency: `CompletableFuture`, `UtilConcurrency.runAsync` and the schedulers are modelled synchronously. Tab completion and dispatch return their results directly, and the close consumer and tick handler report which scheduler they would call.
- Platform calls are opaque function parameters, because their code is not part of this model. These are `PlatformProxy` (permission, parse, send, `runSync`, `runLater`), `UtilString.getMatching`, the `TabCompleter` and `SenderType` implementations and reflective method calls. `UtilLogger` calls are left out, since they only log.
- `AnnotationPlatformCommandExecutor` is not part of this model. The executor is the data handed to its builder, and argument injection at run time is not modelled.
- Reflection is replaced by the class/method/parameter schema: annotations, `getDeclaredMethods` order, `Modifier.isPublic` and `getConstructor().newInstance()`. A throwing constructor is folded into "not instantiable".
- Cyclic `@SubCommands`: a class definition holds its sub-command classes as a finite tree, so a class that lists itself or an ancestor cannot be represented. On such a class the Java `parseCommand`/`getSubCommands` recursion never ends and fails with a `StackOverflowError`, which the model does not capture.
- The `includePlayersWithArguments` flag is copied from the builder into the command and never read, so it is not modelled.
- Case folding: `equalsIgnoreCase` and `toLowerCase` are modelled on ASCII letters only. `getByCode` additionally handles the Kelvin sign and the dotted capital I, which are the only non-ASCII characters that lower to ASCII letters under the root locale. Digits are ASCII digits only.
- TimeOutMaps.TimeOutHashMap: `now - time` is unbounded, not a `long` that could overflow, and the clock is an argument in place of `System.currentTimeMillis()`.
- GuiTicker.TickHandler.Tick: `ticks` is unbounded, not an `int` that wraps after 2^31 ticks. The handler `Consumer` is not stored; `Tick` reports how it would be invoked.
- PlatformCommands.CommandBuilder.Build: requires a name. A node with a null name would throw in `fitsCommand`, which the model does not represent.
- Floating point: the `double`/`float` cases of `parseBasic` become an opaque `FloatingTag` holding the text; `Placeholder.simple` for `double`/`float` is left out.
- `UtilConfigItem.fromConfigItem` and `fromNameOrId` build Minecraft items and are left out. `fromPermissibleItem` reports which configured item would be built. The `parsed != null` checks in `parseNBT` are dead code, because `parseNBT` never returns null.
- `parseBasic`'s `PlaceholderFactory.handlePlaceholders` is an opaque function of the placeholders and the data.
- KeyedMaps.KeyedMap: the unchecked cast in `get` and the per-key value types are not modelled; one value type `V` is used. `EMPTY` is one shared static instance in Java, modelled as an unmodifiable map. The constructor `KeyedMap(backingMap)` shares the caller's map, and that aliasing is not modelled.
- ConfigRewards: `build` hands the builder's own lists to the reward, so a later `commands(...)` call on the builder also changes the built reward. The model copies the lists as values. The varargs overloads of `commands`/`messages` are `List.of` of their arguments and are not separate members.
- SerializerRegistries.SerializerRegistry: the static `REGISTRY` is one object in the model.
- PlayerManagers.PlayerManager: the cache is filled by platform event listeners, which are not part of this model. `mapId` depends on attribute loading and is left out.
- `UtilChatColour.colour` and `parseColour` build Minecraft components and are left out.
- The platform adapters, GUI code, databases, codecs and trivial declaration-only files of the repository are not part of this model.
