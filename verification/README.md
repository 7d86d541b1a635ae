# Steam platform service bookkeeping

A Dafny model of the bookkeeping that CryEngine's Steam platform service
(`Cry::GamePlatform::Steam::CService`) does in the methods whose bodies its
header writes out:

- the **listener registry**, an ordered list of listener pointers that
  `AddListener` appends to and `RemoveListener` erases the first matching entry
  from (CryEngine's `stl::find_and_erase`, read as "find the first equal element,
  erase it if found");
- the **awaiting-callback counter**, which `SetAwaitingCallback` moves by a
  signed delta without any clamping;
- the six **owned subsystem slots** (statistics, leaderboards, remote storage,
  matchmaking, networking, server) and their accessors, which return whatever
  the slot holds, possibly nothing;
- the two **constant answers**: the connection status is always `Connected`,
  and the multiplayer-access check calls its callback once with `true`.

Layout:

- `wrappers.dfy` (`Wrappers`): `Option`, the stand-in for a pointer that may be null.
- `listeners.dfy` (`Listeners`): `FindIndex` (what std::find returns) and
  `FindAndErase` on sequences, with their properties.
- `service_calls.dfy` (`ServiceCalls`): the listener list and counter as a
  value, the effect of each state-changing call (`Apply`) and of a run of
  calls (`Replay`), and lemmas about runs.
- `steam_service.dfy` (`SteamService`): the `Service` class with the source's
  fields, its modifying methods (tied to `Apply`) and its read-only accessors.
  Listeners and subsystem modules are empty classes: only their identity
  matters, as only pointers to them are stored.

`SetAwaitingCallback` (SteamService.h:85) has no guard, so the counter can go
negative; the model adds none (`ServiceCalls.Replay`: any run of calls ends at
the starting value plus the sum of the deltas, whatever their signs).

## Model

| member | source | states |
|---|---|---|
| `Listeners.FindIndex` | Code/CryPlugins/CryGamePlatform/Module/Steam/SteamService.h:43 | the search inside find-and-erase stops at the first index holding the listener, and at the end exactly when the listener is absent |
| `Listeners.EraseAt` | Code/CryPlugins/CryGamePlatform/Module/Steam/SteamService.h:43 | erasing one position removes one copy of that element and shifts the later entries left, keeping the earlier ones |
| `Listeners.FindAndErase` | Code/CryPlugins/CryGamePlatform/Module/Steam/SteamService.h:43 | an absent value leaves the list unchanged; a present one loses exactly its first occurrence (length minus one, one copy fewer), other entries keep their relative order |
| `Listeners.FindAndEraseAfterAppend` | Code/CryPlugins/CryGamePlatform/Module/Steam/SteamService.h:42-43 | append then find-and-erase of the same value gives back the list when the value was absent; when present, its first occurrence is erased and the appended copy stays last |
| `Listeners.AppendEraseRestoresIff` | Code/CryPlugins/CryGamePlatform/Module/Steam/SteamService.h:42-43 | append then find-and-erase gives back the original list if and only if every entry from the value's first occurrence on equals the value (always so when it is absent) |
| `ServiceCalls.Apply` | Code/CryPlugins/CryGamePlatform/Module/Steam/SteamService.h:42-43 | one call's effect on the bookkeeping: AddListener puts the listener last and keeps the earlier entries, RemoveListener drops one copy of it if present (length minus one) and otherwise nothing, only SetAwaitingCallback moves the counter, by its delta, and it leaves the listeners alone |
| `ServiceCalls.Replay` | Code/CryPlugins/CryGamePlatform/Module/Steam/SteamService.h:85 | after any run of calls the counter equals its start plus the sum of all SetAwaitingCallback deltas, with no clamping |
| `ServiceCalls.ReplayCounterCallsKeepListeners` | Code/CryPlugins/CryGamePlatform/Module/Steam/SteamService.h:85 | a run of SetAwaitingCallback calls leaves the listener list untouched |
| `ServiceCalls.RepeatedAdds` | Code/CryPlugins/CryGamePlatform/Module/Steam/SteamService.h:42 | n AddListener calls with one listener append it n times: no deduplication, length grows by exactly one per call |
| `ServiceCalls.AddThenRemove` | Code/CryPlugins/CryGamePlatform/Module/Steam/SteamService.h:42-43 | AddListener(l) then RemoveListener(l) restores the bookkeeping when l was not registered; otherwise l's first entry is removed and the new one kept last |
| `ServiceCalls.AddThenRemoveRestoresIff` | Code/CryPlugins/CryGamePlatform/Module/Steam/SteamService.h:42-43 | AddListener(l) then RemoveListener(l) leaves the bookkeeping unchanged if and only if every entry from l's first occurrence on is l |
| `SteamService.Service.constructor` | Code/CryPlugins/CryGamePlatform/Module/Steam/SteamService.h:96-114 | the service holds the source's fields: six optional subsystem slots, the counter and the ordered listener list, each set to the given initial value |
| `SteamService.Service.AddListener` | Code/CryPlugins/CryGamePlatform/Module/Steam/SteamService.h:42 | the new list is the old list with the listener appended at the end; one more copy of it; nothing else changes |
| `SteamService.Service.RemoveListener` | Code/CryPlugins/CryGamePlatform/Module/Steam/SteamService.h:43 | an unregistered listener is a no-op; otherwise exactly the first occurrence is erased and the rest keep their order; nothing else changes |
| `SteamService.Service.SetAwaitingCallback` | Code/CryPlugins/CryGamePlatform/Module/Steam/SteamService.h:85 | the counter becomes old value plus the signed delta, with no non-negativity guard; listeners and slots are untouched |
| `SteamService.Service.GetLocalServer` | Code/CryPlugins/CryGamePlatform/Module/Steam/SteamService.h:56 | returns exactly the server slot's contents, possibly None, and changes nothing |
| `SteamService.Service.GetLeaderboards` | Code/CryPlugins/CryGamePlatform/Module/Steam/SteamService.h:58 | returns exactly the leaderboards slot's contents, possibly None, and changes nothing |
| `SteamService.Service.GetStatistics` | Code/CryPlugins/CryGamePlatform/Module/Steam/SteamService.h:59 | returns exactly the statistics slot's contents, possibly None, and changes nothing |
| `SteamService.Service.GetRemoteStorage` | Code/CryPlugins/CryGamePlatform/Module/Steam/SteamService.h:60 | returns exactly the remote-storage slot's contents, possibly None, and changes nothing |
| `SteamService.Service.GetMatchmaking` | Code/CryPlugins/CryGamePlatform/Module/Steam/SteamService.h:62 | returns exactly the matchmaking slot's contents, possibly None, and changes nothing |
| `SteamService.Service.GetNetworking` | Code/CryPlugins/CryGamePlatform/Module/Steam/SteamService.h:64 | returns exactly the networking slot's contents, possibly None, and changes nothing |
| `SteamService.Service.GetConnectionStatus` | Code/CryPlugins/CryGamePlatform/Module/Steam/SteamService.h:79 | always Connected, whatever the state; changes nothing |
| `SteamService.Service.CanAccessMultiplayerServices` | Code/CryPlugins/CryGamePlatform/Module/Steam/SteamService.h:80 | the callback is invoked exactly once, with true; changes nothing |

## Left out

- `SteamService.Service.SetAwaitingCallback`: the counter is an unbounded integer; the C++ field is a 32-bit `int` whose overflow is undefined behaviour, which is not modelled.
- `SteamService.Service.constructor`: the real constructor and destructor are not part of this model, so the initial value of every field (including the counter) is a parameter.
- `SteamService.Service.CanAccessMultiplayerServices`: the callback is external code; the model returns the list of arguments it was called with instead of calling it.
- `stl::find_and_erase` is not part of this model; it is read as "erase the first element equal to the value, if any".
- `EConnectionStatus` is declared in IPlatformService.h, which is not part of this model; `Disconnected` stands for every enumerator other than `Connected`.
- Steam SDK calls (`OpenDialog`, `OpenDialogWithTargetUser`, `OpenBrowser`, `CanOpenPurchaseOverlay`, `GetAuthToken`, `OwnsApplication`, `GetApplicationIdentifier`, `RequestUserInformation`, `GetServiceIdentifier`, `GetBuildIdentifier`): foreign calls whose bodies are not in the header.
- Steam event callbacks (`OnGameOverlayActivated`, `OnAvatarImageLoaded`, `OnFriendStateChange`): driven by the SDK, bodies not in the header.
- The account store and friends cache (`GetLocalAccount`, `GetFriendAccounts`, `GetAccountById`, `IsFriendWith`, `GetFriendRelationship`, `TryGetAccount`, `RemoveAccount`, `m_accounts`, `m_friends`): declarations only, so no behaviour is modelled for them.
- `CreateServer`: declaration only; only the read of the server slot (`GetLocalServer`) is modelled, and no method of the model changes a subsystem slot.
- Plugin lifecycle (`Initialize`, `MainUpdate`) and the constant `GetName` / `GetCategory` strings: engine wiring, not bookkeeping.
- `m_translationMappings` and `m_authTicketHandle`: used only by code whose bodies are not in the header.
- Listener dispatch: no code in the header iterates the listener list, so delivery order and removal during dispatch are not modelled.
