# Stock manager back end: withdrawal requests, stock alerts, material edits

A Dafny model of the request-handling core of a small stock-management back end
(FastAPI over MongoDB, `backend/server.py`). The database is an immutable
`Store` with four collections, each a sequence in the database's natural order:

- materials (`Material`: id, name, integer quantity, date added);
- agents and supervisors (`Person`: id, name, badge number), which are only read;
- withdrawal requests (`Demande`, the stored `DemandeSortie`).

Each endpoint is a pure function. A writing endpoint returns a `Response`: the
body or HTTP error, together with the store after the call. This makes "nothing
changes on an error" a proved postcondition.

Lookups follow MongoDB's `find_one` / `update_one` / `delete_one`: they act on
the first document in natural order whose `id` matches. The model does not
assume that ids are unique. Where uniqueness matters, a lemma states the
corollary under `UniqueIds`, which is what `uuid4` ids give in practice.

Modules:

- `Basics`: `Option`, `Result` and `HttpError`.
- `Records`: the documents, `Store`, `Response`, the default status `"en_attente"` and the 1000-document listing cap.
- `Lookup`: first-match lookup by id.
- `Inventory`: the `$inc` stock decrement and its effect on the whole collection.
- `MaterialEndpoints`: `update_material` and `delete_material`.
- `Alerts`: `get_stock_alerts`.
- `Demandes`: `create_demande` and `get_demandes`.

Facts about `backend/server.py` that shape the model:

- A new request is stored with the `DemandeSortie` default status `"en_attente"` (server.py:88).
- Requested material ids are not looked up (server.py:283-288). An unknown id matches nothing and raises no 404.
- Stock alerts compare every quantity against the fixed limits 5 and 15 (server.py:299-302).
- Agent 1 and agent 2 may be the same person, because nothing compares the two ids (server.py:259-266).

## Model

| member | source | states |
|---|---|---|
| Lookup.IndexOf | backend/server.py:132-137 | the position found is the first material carrying the id; `None` exactly when no material carries it |
| Lookup.FindPerson | backend/server.py:254-266 | the person found carries the id and is the first such in the collection; `None` exactly when nobody carries it |
| Inventory.IncQuantity | backend/server.py:285-288 | an `$inc` changes only the quantity of the first material with the id, by exactly delta; with no match the collection is unchanged and nothing is created |
| Inventory.ApplyWithdrawal | backend/server.py:282-288 | a withdrawal creates and removes no material: the collection keeps its length, and every material keeps its id, name and date |
| Inventory.WithdrawalEffect | backend/server.py:282-288 | the first material of each requested id ends at old quantity minus the strictly positive requested amount, with no floor at zero. Materials not requested, requested with a quantity ≤ 0, or shadowed by an earlier material with the same id are unchanged. Under unique ids every material loses exactly its positive requested amount |
| Inventory.WithdrawLoop | backend/server.py:283-288 | the source's loop of one `$inc` per strictly positive item, visiting the dict keys in any order, yields exactly `ApplyWithdrawal` |
| Inventory.IncQuantityConserves | backend/server.py:285-288 | one `$inc` changes the total stock by exactly delta when it matches a material, and by nothing otherwise |
| Inventory.WithdrawalConserves | backend/server.py:282-288 | with unique ids, total stock after a withdrawal equals total before minus exactly what was requested of existing materials |
| Inventory.WithdrawalsAccumulate | backend/server.py:285-288 | two withdrawals applied one after the other remove the sum of both positive amounts from a material, so both decrements take effect |
| Inventory.WithdrawalsCommute | backend/server.py:283-288 | the stock after two withdrawals does not depend on their order |
| MaterialEndpoints.UpdateMaterial | backend/server.py:126-140 | no supplied field gives 400 and an unknown id gives 404, each with the store unchanged. Otherwise only the first material with the id changes: supplied fields are set, other fields are kept, and every other document is untouched. The returned material is that document as re-read |
| MaterialEndpoints.UpdateIdempotent | backend/server.py:127-140 | sending the same update twice gives the same store and body as sending it once |
| MaterialEndpoints.UpdatePreservesUniqueIds | backend/server.py:43-45 | an update cannot change an id, so unique material ids stay unique |
| MaterialEndpoints.DeleteMaterial | backend/server.py:142-147 | 404 exactly when no material has the id, with the store unchanged. Otherwise exactly the first material with the id is removed, the others keep their order, and the success message is returned |
| MaterialEndpoints.DeleteRemovesId | backend/server.py:142-147 | with unique ids, after a delete no material carries the id, ids stay unique, and a second delete answers 404 |
| Alerts.Level | backend/server.py:298-302 | the level is "critique" iff quantity ≤ 5, "bas" iff 5 < quantity ≤ 15, and "normal" iff quantity > 15; the boundaries 5 and 15 fall in the stricter bucket |
| Alerts.LevelMonotone | backend/server.py:298-302 | a lower quantity never gets a less urgent level |
| Alerts.GetStockAlerts | backend/server.py:293-308 | one alert per listed material, in store order, each holding the material unchanged and its level string, with at most 1000 entries. The string is "critique" iff quantity ≤ 5, "bas" iff 5 < quantity ≤ 15, and "normal" iff quantity > 15 |
| Demandes.CreateDemande | backend/server.py:251-290 | the supervisor, then agent 1, then agent 2 are checked, and the first one missing gives its own 404 with the store unchanged. Success happens exactly when all three exist, whatever material ids are requested. On success the request list grows by exactly the new record, which holds the three people's names and badge numbers, the requested map verbatim, the signature and status "en_attente". Agents and supervisors are unchanged, and materials become `ApplyWithdrawal` of the request |
| Demandes.CreateDemandeStock | backend/server.py:282-288 | on success each requested id with quantity > 0 that names a material ends at exactly old minus quantity. Materials not requested or requested with quantity ≤ 0 keep their record. No material appears or disappears |
| Demandes.CreateDemandePreservesUniqueIds | backend/server.py:282-288 | creating a request never changes a material id, so unique ids stay unique |
| Demandes.InsertByDate | backend/server.py:248 | inserting into a newest-first sequence keeps it newest-first and adds exactly the one request |
| Demandes.SortNewestFirst | backend/server.py:248 | the result is ordered newest first and is a permutation of the input |
| Demandes.PrefixIsNewest | backend/server.py:248 | a prefix of a newest-first permutation is newest-first and part of the input; any request left out, counting duplicate copies one by one, is no newer than any kept |
| Demandes.GetDemandes | backend/server.py:246-249 | the listing has min(count, 1000) requests, newest first, drawn from the stored ones (all of them when there are at most 1000). Any request left out, counting duplicate copies one by one, is no newer than every one returned |

## Left out

- MongoDB access, FastAPI routing, CORS, logging and process shutdown. The database is the in-memory `Store`.
- `uuid4` ids and `datetime.utcnow()` timestamps: `CreateDemande` takes the new id and the date, an integer, as parameters.
- Concurrency and partial failure. The source inserts the request and then issues one atomic `$inc` per material, with no transaction. `CreateDemande` is one sequential step, so the intermediate states (record stored, some decrements not yet applied) and storage failures are not modelled.
- The login endpoint with its fixed password and token: no logic beyond a string comparison.
- Listing and creating materials, and the full CRUD for agents, supervisors and section chiefs. Only lookup by id into agents and supervisors is modelled; the other endpoints are boilerplate of the same shape as the modelled material endpoints.
- Request-body validation by pydantic: the Dafny types stand in for it.
- Alerts.GetStockAlerts: models the list the handler builds (server.py:295-308), not the HTTP response. The handler returns raw MongoDB documents, whose `_id` is a `bson.ObjectId`, and the route declares no response model (server.py:293). The source as written therefore most likely fails to serialise the response whenever a material exists. The model returns the intended list instead, the one the front end reads.
- Demandes.GetDemandes: MongoDB leaves the relative order of equal dates unspecified. The model keeps store order for ties, but the contract promises only date order, so a caller cannot rely on any tie order.
- Quantities are unbounded integers in the model. The source stores them as BSON integers, which cover only the signed 64-bit range. A requested amount or an updated quantity outside that range makes `insert_one` (server.py:280) or `update_one` (server.py:132) fail with a server error, and a `$inc` whose result leaves the range is refused (server.py:285-288). `CreateDemande`, `UpdateMaterial` and `IncQuantity` instead succeed with the exact value.
- frontend/src/App.js input coercion and `min`/`max` form limits: they run in the browser and the server does not enforce them.
