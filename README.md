# Cognitive health surveillance pathway — verified model

This project models the logic of the pathway view. The view shows a timeline of military medical-surveillance events for one of three scenarios. Next to the timeline is a Sankey diagram of event → category → location flows. Three modules cover it:

- `PathwayData` (`pathway_data.dfy`) holds the two constant tables as Dafny maps: the scenario table (`SCENARIOS`) and the event table (`EVENT_DATABASE`). It also holds the resolution of a scenario's script of event ids into event records. Ids that are not keys of the table are dropped (see "Left out" for inherited property names), and each record gets its own id attached.
- `PathwayView` (`pathway_view.dfy`) holds the find-or-fallback that picks the event shown in the detail panel and the total `getDotColor` lookup. It also holds the `Timeline` class. That class keeps the component's two pieces of mutable state, the active scenario id and the selected event id. Its methods change them the way the scenario buttons, the timeline clicks and the mobile close button do.
- `Sankey` (`sankey.dfy`) builds the diagram's nodes and links imperatively, as the component's effect does. One loop collects title, category and location per event. The labels are deduplicated in first-encounter order, as a spread `Set` does. A second loop pushes two links per event, and their endpoints are found by `findIndex` scans. Each loop is a method proved against a specification function. The lemmas beside them state what the diagram relies on.

The record field `type` is called `category` here, because `type` is a Dafny keyword.

The Sankey builder pushes one link of value 1 per event per stage. It never merges repeated (source, target) pairs (`SankeyPathway.jsx:30-42`). `LinksAppend` and `ParallelLinksKept` state this.

`SCENARIOS[activeScenarioId].events` (`ANAM_Pathway.jsx:276-279`) has no not-found path. So `EventList` and `Timeline.SwitchScenario` require the id to be a key of the scenario table. `ScenarioButtons` shows that the buttons only pass keys.

## Model

| member | source | states |
|---|---|---|
| PathwayData.WithId | anam_pathway/src/components/ANAM_Pathway.jsx:283 | the resolved item carries the given id, and dropping the id gives back exactly the table record (no other field changes) |
| PathwayData.Resolve | anam_pathway/src/components/ANAM_Pathway.jsx:279-285 | the resolved list is no longer than the script; every item's id is in the script and in the table, and the item is that id's record with the id attached |
| PathwayData.ResolveKeeps | anam_pathway/src/components/ANAM_Pathway.jsx:279-285 | every script id that has a table entry appears in the resolved list with its record, so only ids without an entry are dropped |
| PathwayData.ResolveAppend | anam_pathway/src/components/ANAM_Pathway.jsx:279-285 | resolution keeps script order: resolving `a + b` gives the resolution of `a` followed by that of `b` |
| PathwayData.ResolveLengthExact | anam_pathway/src/components/ANAM_Pathway.jsx:279-285 | the resolved list is exactly as long as the script if and only if every id of the script has a table entry |
| PathwayData.EventList | anam_pathway/src/components/ANAM_Pathway.jsx:276-285 | the active scenario's events need its id to be a key of the scenario table (no not-found path), and there are at most as many as script ids |
| PathwayData.ScriptsResolve | anam_pathway/src/components/ANAM_Pathway.jsx:21-205 | every id in every scenario script has an entry in the event table |
| PathwayData.TapasInEveryScenario | anam_pathway/src/components/ANAM_Pathway.jsx:21-40 | `'tapas'` is in every scenario script and is its first id, which justifies the initial selection |
| PathwayData.EventListFull | anam_pathway/src/components/ANAM_Pathway.jsx:276-285 | with the constant tables, every scenario resolves in full, is non-empty, and starts with the TAPAS record |
| PathwayData.ScenarioButtons | anam_pathway/src/components/ANAM_Pathway.jsx:318-321 | one button per scenario table entry, each carrying its own key as id, so every id a button passes is a table key |
| PathwayView.Find | anam_pathway/src/components/ANAM_Pathway.jsx:296 | `find` by id gives none exactly when no event carries the selected id; otherwise it gives a listed event carrying that id, namely the first one; a cleared selection matches nothing |
| PathwayView.Matches | anam_pathway/src/components/ANAM_Pathway.jsx:296 | `e.id === selectedEventId`: a cleared (`null`) selection matches no event, and a match means the event carries the selected id |
| PathwayView.SelectedEvent | anam_pathway/src/components/ANAM_Pathway.jsx:295-298 | the shown event exists if and only if the list is non-empty, and it is always a member of the list; when an event carries the selected id it is what `find` returns, the FIRST such event; otherwise it is the first event |
| PathwayView.ClearedSelectionFallsBack | anam_pathway/src/components/ANAM_Pathway.jsx:295-298 | with the selection cleared, the shown event is the first event if there is one, and none otherwise |
| PathwayView.DetailAlwaysShown | anam_pathway/src/components/ANAM_Pathway.jsx:295-298 | with the constant tables, the detail panel always shows an event of the active scenario, whatever the selection |
| PathwayView.DotColor | anam_pathway/src/components/ANAM_Pathway.jsx:211-221 | total lookup: each of the six recognised categories gets its own colour, and the result is the indigo default if and only if the category is not recognised |
| PathwayView.UncolouredCategories | anam_pathway/src/components/ANAM_Pathway.jsx:211-221 | the table categories Milestone, Movement and Psychological fall to the indigo default |
| PathwayView.Timeline.constructor | anam_pathway/src/components/ANAM_Pathway.jsx:273-274 | the initial state is scenario `'standard'` with `'tapas'` selected, and that state survives the mount-time run of the scenario effect |
| PathwayView.Timeline.Events | anam_pathway/src/components/ANAM_Pathway.jsx:276-285 | the active scenario's resolved events, at most as many as its script ids |
| PathwayView.Timeline.Selected | anam_pathway/src/components/ANAM_Pathway.jsx:295-298 | the detail-panel event of the current state exists if and only if the active list is non-empty, and it is a member of that list |
| PathwayView.Timeline.SwitchScenario | anam_pathway/src/components/ANAM_Pathway.jsx:288-292 | the scenario becomes the given id; if the id changed and the new list is non-empty, the selection becomes its first id and the shown event is its first event; otherwise the selection is unchanged |
| PathwayView.Timeline.SelectEvent | anam_pathway/src/components/ANAM_Pathway.jsx:351 | a timeline click selects the clicked id and leaves the scenario alone; a listed id is then the id of the shown event |
| PathwayView.Timeline.CloseDetails | anam_pathway/src/components/ANAM_Pathway.jsx:517 | the close button clears the selection and leaves the scenario alone; the shown event still falls back to the first event while the list is non-empty |
| Sankey.IndexOf | anam_pathway/src/components/SankeyPathway.jsx:32 | `findIndex` by name gives -1 exactly when the name is absent; otherwise it gives the first index holding the name |
| Sankey.Dedup | anam_pathway/src/components/SankeyPathway.jsx:27 | the node list has no duplicates, holds exactly the collected labels, and is no longer than them |
| Sankey.DedupFirstEncounter | anam_pathway/src/components/SankeyPathway.jsx:27 | nodes keep first-encounter order: an earlier node's label first occurs earlier among the collected labels |
| Sankey.DedupLengthExact | anam_pathway/src/components/SankeyPathway.jsx:27 | deduplication drops nothing if and only if the collected labels are pairwise distinct |
| Sankey.Labels | anam_pathway/src/components/SankeyPathway.jsx:21-25 | exactly three labels are collected per event |
| Sankey.LabelsAt | anam_pathway/src/components/SankeyPathway.jsx:21-25 | labels 3i, 3i+1 and 3i+2 are event i's title, category and location, in list order |
| Sankey.Nodes | anam_pathway/src/components/SankeyPathway.jsx:21-27 | the node list holds every collected label exactly once, so at most 3·n nodes |
| Sankey.NodeCountExact | anam_pathway/src/components/SankeyPathway.jsx:21-27 | there are at most 3·n nodes, and exactly 3·n if and only if all titles, categories and locations are pairwise distinct labels |
| Sankey.EventLinks | anam_pathway/src/components/SankeyPathway.jsx:31-41 | one event's two links, each of value 1, share the category node; when the labels are nodes, the endpoints name the title, the category and the location |
| Sankey.Links | anam_pathway/src/components/SankeyPathway.jsx:30-42 | exactly two links are pushed per event |
| Sankey.LinksAt | anam_pathway/src/components/SankeyPathway.jsx:30-42 | links 2i and 2i+1 are event i's title→category and category→location links, each of value 1 |
| Sankey.LinksValid | anam_pathway/src/components/SankeyPathway.jsx:32-39 | every link's source and target is a valid node index (never -1), and every link has value 1 |
| Sankey.LinkEndpoints | anam_pathway/src/components/SankeyPathway.jsx:31-41 | link 2i joins the nodes named by event i's title and category; link 2i+1 joins the nodes named by its category and location |
| Sankey.LinksAppend | anam_pathway/src/components/SankeyPathway.jsx:30-42 | links are never merged: the links of `a + b` are those of `a` followed by those of `b` |
| Sankey.ParallelLinksKept | anam_pathway/src/components/SankeyPathway.jsx:30-42 | two events with the same title and category each keep their own identical link of value 1, at different positions |
| Sankey.FindIndex | anam_pathway/src/components/SankeyPathway.jsx:32-39 | the scan returns -1 exactly when the name is absent, and otherwise the first index holding it |
| Sankey.UniqueInOrder | anam_pathway/src/components/SankeyPathway.jsx:27 | the `Set` fill-and-spread yields exactly the deduplicated labels in first-encounter order |
| Sankey.BuildGraph | anam_pathway/src/components/SankeyPathway.jsx:9-42 | nodes and links are a function of the events alone, so building twice gives the same result; an empty list builds nothing; nodes are duplicate-free; there are 2·n links, all of value 1 with valid endpoints |

## Left out

- The `d3-sankey` layout call and its floating-point geometry (`SankeyPathway.jsx:44-52`) are not modelled: they run in a foreign library.
- SVG drawing through `d3.select`/`append` (`SankeyPathway.jsx:14-15, 54-92`) is not modelled: it is DOM side effects. On an empty list the component returns before clearing the SVG, and what stays drawn is not modelled.
- React rendering, JSX markup, Tailwind class strings other than the dot colours, and `lucide-react` icons are presentation only.
- The `type`-keyed class and text ternaries of the timeline card and the detail panel (`ANAM_Pathway.jsx:247-250, 378-380, 408-409, 429-430, 446-452, 464-468`) are presentation switches and are not modelled.
- The `description` and `icon` fields of event records are opaque payload with no behaviour, so records leave them out. `month` is kept as an opaque `real`; its `Math.floor` display is not modelled.
- Sankey nodes are `{ name }` objects in the code. The model keeps only their names.
- Sankey.BuildGraph: takes a sequence, so an absent (`undefined`) `events` prop is not represented. The code takes the same early return for it as for the empty list.
- PathwayView.Timeline.SwitchScenario: the button's state update and the effect it triggers are modelled as one step. The single render in between, with the new scenario and the old selection, is not modelled. The detail-panel fallback covers that render.
- PathwayView.Timeline.SelectEvent: accepts any id, as the state setter does. The timeline only offers ids of listed events.
- PathwayData.Resolve: the tables are modelled by their own keys only. In the code, `EVENT_DATABASE[id]` and `SCENARIOS[id]` are plain-object reads, and they also find inherited properties such as `toString`, `constructor`, `hasOwnProperty` and `__proto__`. An id with such a name is kept as `{ id }` by the code but dropped by the model. No script in the tables contains such an id.
