# pyheos mock device and player manager, in Dafny

This project models two pieces of the pyheos repository.

The first is the mock HEOS device that the library's tests talk to (`tests/__init__.py`). It is a
stand-in for the real device. It reads one command line at a time, such as
`heos://player/get_volume?pid=1&sequence=2`, and works out the command and its query. It then
answers from one of three tiers, tried in order:

1. the registered command matchers (`CommandMatcher.is_match`);
2. the one-shot handlers queued for that command, consumed in FIFO order;
3. a small table of built-in commands that fill placeholders into fixture text.

Each answer is written back one terminated line at a time. A connection that subscribes to
change events (`enable=on`) can later be sent an event with `write_event`.

The second is the part of the `Heos` manager in `pyheos/heos.py` that keeps the loaded state.
It covers:

- merging a fresh player payload into the known player objects (`get_players`);
- rebuilding the groups and music sources;
- numbering the favourites;
- reacting to change events;
- reporting whether a user is signed in.

The modules are:

- `Strings`: Python's `str.replace`, `split`/`join`, `lstrip` and `rstrip`, and lower-casing, with
  their properties;
- `Dicts`: `dict(pairs)`, where the later pair for a key wins;
- `Framing`: line termination and the response shapes (one text, or a list of lines);
- `Request`: the subset of `urlparse` and `parse_qsl` the device uses, and the derived command
  and fixture names;
- `MockDevice`:
  - the matchers and the dispatch as pure functions (`Resolve`, `Step`, `Serve`);
  - the classes `ConnectionLog` and `MockHeosDevice`, whose methods are proved against those
    functions;
- `Manager`:
  - the player merge as a pure function (`Merge`) with its lemmas;
  - the classes `HeosPlayer` and `Heos`, whose methods are proved against `Merge` and `Index`.

Failures the source raises as exceptions are values of `MockDevice.Failure`:

- a `KeyError` is `MissingKey`;
- a missing fixture file is `UnknownFixture`;
- `pytest.fail` is `Unrecognized`;
- a `None` hostname is `MalformedLine`;
- an exhausted `next` in `write_event` is `NoSubscriber`.

In these places the model follows what the code does:

- `is_match` reads `args[key]`, so a request that lacks a key the matcher requires raises
  instead of simply not matching. The model returns `MissingKey` there.
- A line answered by a matcher is never added to the connection's command log. Any other line is
  added only after its response has been computed.
- `enable=off` never clears an earlier subscription. The flag is set before the fixture lookup,
  so it stays set even when that lookup then fails.
- `parse_qsl` drops blank fields and fields without `=`. Its percent-decoding is not modelled
  (see below).

## Model

| member | source | states |
|---|---|---|
| MockDevice.ArgsOutcomeSpec | tests/__init__.py:170-174 | Checking a matcher's required arguments fails with `MissingKey` exactly when the first argument that does not agree is absent from the query. It returns true exactly when every argument is present with an equal value, and false exactly when the first disagreement is a different value. |
| MockDevice.MatchOutcomeSpec | tests/__init__.py:166-174 | A matcher matches iff the command is equal and every required argument is present with an equal value. A different command never matches, whatever the query holds. |
| MockDevice.IsMatch | tests/__init__.py:166-174 | The looping check returns the same outcome as the matcher specification, including the `MissingKey` error. |
| MockDevice.FirstMatchSpec | tests/__init__.py:104-105 | The matcher chosen is the first in registration order that matches, and every earlier one does not match. None is returned only when no matcher matches. |
| MockDevice.FindMatcher | tests/__init__.py:104-105 | The scan over the matcher list returns the first matching index, or none, or the error raised by the first matcher that fails. |
| MockDevice.MatcherTierWins | tests/__init__.py:104-110 | When a matcher fires, its fixture is the whole response and no one-shot handler is consumed. The subscription flag and the command log do not change. The only effect is the write of that response. |
| MockDevice.OneShotPopsFront | tests/__init__.py:113-122 | With no matcher hit and a non-empty queue, the front handler answers and is removed. The rest of that queue and every other command's queue are unchanged. The line is logged only when the handler succeeds. |
| MockDevice.OneShotFifo | tests/__init__.py:113-116 | The j-th of n requests for a command, whatever their queries (each carries its own `sequence`), is answered by the j-th handler registered for it. Afterwards exactly the first n handlers are gone and no other queue has changed. |
| MockDevice.OneShotExhausted | tests/__init__.py:113-123 | After as many requests for a command as it has queued handlers, whatever their queries, the next request for that command falls through to the built-in table. |
| MockDevice.RegisterForEvents | tests/__init__.py:123-128 | The subscription request raises `MissingKey` without any effect when `enable` is absent. Otherwise `enable=on` sets the flag and other values keep it. The answer is the fixture with every `{enable}` replaced by the value, or `UnknownFixture` if there is none. |
| MockDevice.GetPlayersFixture | tests/__init__.py:129-130 | `player/get_players` answers with its fixture unchanged and leaves the handlers and the flag alone. |
| MockDevice.PlayerStateSubstitution | tests/__init__.py:132-140 | The five player-state commands answer with the fixture after `{player_id}` becomes `pid` and `{sequence}` becomes `sequence`. Nothing else is substituted. |
| MockDevice.PlayerStateFailures | tests/__init__.py:138-140 | The player-state commands fail in the order the lookups run: a missing fixture first, then a missing `pid`, then a missing `sequence`. A failure leaves the handlers, the flag and the command log unchanged. |
| MockDevice.UnrecognizedFails | tests/__init__.py:141-142 | A command that no tier answers fails with `Unrecognized`, never with an empty response, and changes no state. |
| MockDevice.SubscriptionFlag | tests/__init__.py:123-126 | After any request the flag is set iff it was set before, or the request reached the built-in subscription command with `enable=on`. |
| MockDevice.RemoveFirstSpec | tests/__init__.py:154 | `list.remove` deletes exactly the first occurrence of the element and keeps the order of the rest. A list without the element is left as it is. |
| MockDevice.RemoveFirstOfAppended | tests/__init__.py:154 | Removing a connection that was appended to a list not holding it gives back the original list. |
| MockDevice.ConnectionLog.constructor | tests/__init__.py:184-188 | A new connection is not subscribed, has an empty command log and has written nothing. |
| MockDevice.ConnectionLog.Write | tests/__init__.py:190-194 | Writing appends exactly one terminated line and changes nothing else. |
| MockDevice.ConnectionLog.WriteResponse | tests/__init__.py:146-152 | A single text is written as one terminated line. A list is written as one terminated line per element, in order. Nothing else changes. |
| MockDevice.MockHeosDevice.constructor | tests/__init__.py:30-36 | A new device has no connections, no one-shot handlers and no matchers. |
| MockDevice.MockHeosDevice.RegisterOneTime | tests/__init__.py:56-58 | The handler is appended at the back of its command's queue. The other queues, the matchers and the connections are unchanged. |
| MockDevice.MockHeosDevice.RegisterCommand | tests/__init__.py:60-74 | A fixture callback is queued under the given command, or, when none is given, under the fixture name with dots turned into slashes. Nothing else changes. |
| MockDevice.MockHeosDevice.Register | tests/__init__.py:76-78 | The matcher, whose argument names are distinct as a dictionary's keys are, is appended last in priority. The handlers and the connections are unchanged. |
| MockDevice.MockHeosDevice.FindSubscriber | tests/__init__.py:52-53 | Returns the first connection, in connection order, that is subscribed to events, or none when no connection is. |
| MockDevice.MockHeosDevice.WriteEvent | tests/__init__.py:50-54 | The event fails with `NoSubscriber` iff no connection is subscribed, and then nothing is written. Otherwise exactly the first subscribed connection receives the event as one terminated line. |
| MockDevice.MockHeosDevice.AnswerBuiltIn | tests/__init__.py:123-142 | The built-in tier answers as the built-in table says and sets the subscription flag as that table says. It writes nothing and logs nothing. |
| MockDevice.MockHeosDevice.HandleRequest | tests/__init__.py:103-152 | One parsed request has the result, handler queues, subscription flag, command log and written lines that the three-tier resolution specifies. |
| MockDevice.MockHeosDevice.HandleLine | tests/__init__.py:93-152 | One terminated line is parsed and served as the line-level specification says. A line without a host fails with `MalformedLine` and changes nothing. |
| MockDevice.MockHeosDevice.Accept | tests/__init__.py:83-84 | An accepted connection gets a fresh log that is not subscribed and is empty. The log is listed after the existing connections. |
| MockDevice.MockHeosDevice.Close | tests/__init__.py:154 | A listed log is removed at its first occurrence, keeping the order of the other connections. A log that is not listed fails with `NotListed` and changes nothing. |
| MockDevice.MockHeosDevice.HandleConnection | tests/__init__.py:80-154 | A connection serves its lines in order until the first failure, with the state the whole-connection specification gives. It is removed from the device's list iff it ended without failure. |
| Request.ParseRequestOfCommandLine | tests/__init__.py:95-100 | A line `heos://group/action?k1=v1&...` with plain names parses to command `group/action`, fixture name `group.action`, and the query built from the fields, where a later key wins. |
| Request.NamesOfCommandLine | tests/__init__.py:98-100 | The command is the host followed by the path. The fixture name is the host, a dot and the path without its leading slash. |
| Request.RegisterCommandNaming | tests/__init__.py:63 | For a group and an action without dots, turning the dots of the fixture name into slashes gives back the command. So a callback registered under a fixture name is queued under the command the request loop derives. |
| Request.ParseQueryOfFields | tests/__init__.py:96 | A query string joined from `name=value` fields with non-empty values parses to the dictionary of those pairs, with `+` read as a space and a later name winning. A query with no field gives the empty dictionary. |
| Framing.FramingRoundTrip | tests/__init__.py:146-152 | A response is written as one terminated write per line. Splitting what was written at the terminator gives back its lines in order, provided no line contains the terminator. |
| Framing.StripTerminatorOfFrame | tests/__init__.py:93 | Stripping the terminator characters from a framed line gives back the line, provided the line does not itself end in one of those characters. |
| Strings.ReplaceSpec | tests/__init__.py:127-128 | The input is cut at every occurrence of the pattern into pieces that contain none of it and join back to the input. Replacing is joining those same pieces with the replacement, so every occurrence is replaced and nothing else changes. |
| Dicts.DictOfSpec | tests/__init__.py:96 | `dict(pairs)` has exactly the keys of the pairs, each mapped to the value of the last pair with that key. |
| Manager.IndexSpec | pyheos/heos.py:105-109 | A dictionary built from a payload by id has exactly the payload's ids as keys. Each id maps to the last entry with that id, which carries that id itself. |
| Manager.BuildIndex | pyheos/heos.py:122-124 | The loop that files each entry under its id builds exactly that dictionary. |
| Manager.MergeKeys | pyheos/heos.py:79-94 | After a fetch the known ids are the earlier ids plus the payload's ids. No player is ever forgotten. |
| Manager.MergeAvailability | pyheos/heos.py:86-92 | A known player is available after a fetch iff the payload lists it. One that is missing keeps its data and is only marked unavailable. |
| Manager.MergeTakesLastEntry | pyheos/heos.py:79-90 | A listed player ends available with the data of its last payload entry, whether it was known before or not. |
| Manager.MergeIdempotent | pyheos/heos.py:77-94 | Fetching the same payload twice leaves the same players as fetching it once. |
| Manager.MergeInTwoSteps | pyheos/heos.py:86-94 | The merge is the reconciliation of the known players followed by the addition of the new ones. These are the two loops of `get_players`. |
| Manager.HeosPlayer.constructor | pyheos/heos.py:82 | A player built from data carries that data's id and data and is available. |
| Manager.HeosPlayer.SetAvailable | pyheos/heos.py:89 | Only the availability changes. |
| Manager.HeosPlayer.FromData | pyheos/heos.py:90 | Only the data changes; the id stays. |
| Manager.Heos.constructor | pyheos/heos.py:30-36 | A new manager has no players, groups or sources, has nothing loaded and has no signed-in user. |
| Manager.Heos.NewPlayers | pyheos/heos.py:79-84 | The first loop creates one fresh, available player per distinct payload id, carrying the last entry with that id. |
| Manager.Heos.MatchOne | pyheos/heos.py:87-92 | A known player listed in the payload becomes available with the payload's data. One that is not listed keeps its data and becomes unavailable. Every other player is unchanged. |
| Manager.Heos.MatchExisting | pyheos/heos.py:86-92 | Every known player is reconciled with the payload. The fresh players returned are exactly those whose ids were not known. |
| Manager.Heos.Adopt | pyheos/heos.py:94 | The new players are added and the existing objects are kept. The invariant linking objects to their states still holds. |
| Manager.Heos.FetchPlayers | pyheos/heos.py:78-94 | The player states become the merge of the old states with the payload. Existing player objects keep their identity, and only ids new to the manager get fresh objects. |
| Manager.Heos.GetPlayers | pyheos/heos.py:74-99 | A fetch happens iff no players are known or a refresh is asked for. Then the states are the merge and the players count as loaded. Otherwise nothing changes. |
| Manager.Heos.GetGroups | pyheos/heos.py:101-115 | Groups are rebuilt from the payload by id iff they are not loaded or a refresh is asked for. The rebuild first loads the players without a refresh, which fetches them, as fresh objects, only when none are known. It then marks the groups loaded. Otherwise nothing changes. |
| Manager.Heos.GetMusicSources | pyheos/heos.py:117-126 | The sources are replaced by the payload's entries by id iff none are known or a refresh is asked for, which is the default. Then they are marked loaded; otherwise nothing changes. |
| Manager.FavoritesNumbering | pyheos/heos.py:143-149 | The favourites are numbered 1 to n in payload order: exactly those keys, with key i+1 holding the i-th entry. |
| Manager.Heos.HandleEvent | pyheos/heos.py:50-64 | Every event is reported as handled, and the loaded flags of sources and groups never change. The players are fetched and merged iff a players event arrives once they are loaded, or a groups event arrives once the groups are loaded while no player is known. Existing player objects keep their identity. Otherwise the players, their states and their loaded flag stay as they were. Sources and groups are rebuilt only for their own event once loaded. A user-changed event sets the username, and the user is then signed in iff the event says so and names a non-empty user. Other events leave the username alone. |
| Manager.Heos.ChangeUser | pyheos/heos.py:58-60 | On a user-changed event the username becomes the event's `un` when the event carries `signed_in`, and none otherwise. The user then counts as signed in iff `signed_in` and a non-empty `un` are both present. |
| Manager.UserChangedSignsIn | pyheos/heos.py:58-60 | After a user-changed event the user counts as signed in iff the event says so and names a non-empty user. |

## Left out

- The server's sockets, `start`/`stop`, the `_started` flag and `readuntil` are not modelled. A connection is the finite sequence of lines it sends, and end of input stands for the peer closing.
- Interleaving is modelled at the level of whole device methods. `Accept`, `HandleLine`, `WriteEvent`, the registrations and `Close` are separate methods that a caller may call in any order. So an event can be pushed to a connection between two of its lines. `HandleConnection` is the special case of one connection served with nothing in between. A suspension inside one line (at a fixture lookup or a `drain`) is not modelled, and neither is `drain` itself.
- Reading fixture files through a thread pool is replaced by a map from fixture name to text. A name missing from the map is `UnknownFixture`.
- Percent-decoding in `parse_qsl` is not modelled, and neither is `;` as a field separator. `+` does become a space.
- Of `urlparse`, the model keeps the scheme, the network location, the path, the query and the fragment. `hostname` drops the user info and the port, as `urlparse` does. `;` parameters are not split off, and bracketed (IPv6) hosts are not modelled: `urlparse` takes the part inside the brackets as the host name and rejects unbalanced brackets with `ValueError`, while the model keeps the brackets. The lemmas about command lines therefore exclude `[` and `]` from the host. The host is lower-cased for ASCII letters only.
- The run-time test that tells a coroutine, a callable and a fixture name apart in a one-shot handler is replaced by the tag of `MockDevice.Handler`.
- MockDevice.MockHeosDevice.RegisterCommand: the callback's own assertions are not modelled. These are that the command is the expected one, that `pid` equals the player id and that the target arguments agree, so `player_id` and `target_args` are not parameters.
- A `defaultdict` that gains an empty list when it is read is modelled as a map in which an absent key means an empty list.
- The value of the line terminator is assumed to be `"\r\n"`; pyheos/connection.py is not part of this model. `rstrip` of it is a strip of those two characters.
- `Strings.Replace` requires a non-empty pattern. Every pattern the source replaces is a non-empty literal.
- Of the manager, the model leaves out the connection and its commands, `connect`, `disconnect`, `sign_in`, `sign_out`, `get_input_sources`, the dispatcher, the `asyncio.gather` refresh of players and groups, and the timeout and heartbeat settings.
- `HeosPlayer`, `HeosGroup`, `create_group` and `HeosSource` (pyheos/player.py, pyheos/group.py, pyheos/source.py) are not part of this model. A player is its id, its data and its availability, and a new player is taken to be available. Groups and sources are the payload entries themselves.
- Manager.Heos.GetGroups: groups and music sources are held as value maps. That the caller receives the manager's own dictionary, which a later rebuild clears or replaces, is not modelled.
- Manager.Heos.GetPlayers: the result is the player map as a value. `get_players` returns `self._players` itself, which a later fetch updates in place. That a caller sees those later updates through the returned dictionary is not modelled. The player objects in it are shared, and their identity is modelled.
- Manager.Heos.MatchExisting: the order in which the known players are visited is not modelled. Each player is updated on its own, so the outcome does not depend on it.
- The event names in pyheos/const.py are not part of this model. They become the kinds of `Manager.EventKind`. `HeosResponse.get_message` and `has_message` (pyheos/response.py) are taken to be lookups in the event's message map.
- The `signed_in_username` property returns the field unchanged, so it has no member of its own.
