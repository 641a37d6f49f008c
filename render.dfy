/**
 * Which tables are expanded (`visibleTables`, message index to flag) and the
 * content `renderMessage` shows for one message: request text with its Urdu
 * note, or response text with a Show/Hide Table control and the records of
 * an expanded table. Markup and styling are not modelled.
 */
module Render {
  import opened Wrappers
  import opened TableFormat
  import opened Messages

  const ShowTableLabel: string := "Show Table"
  const HideTableLabel: string := "Hide Table"

  /** `visibleTables[index]` read as a condition: an absent entry is hidden. */
  predicate Visible(visibleTables: map<nat, bool>, index: nat) {
    index in visibleTables && visibleTables[index]
  }

  /** The updater of `toggleTableVisibility(index)`: entry `index` becomes the
    * negation of its old value (absent counts as false); every other entry is
    * kept exactly, present or absent. */
  function Toggle(visibleTables: map<nat, bool>, index: nat): (r: map<nat, bool>)
    ensures r.Keys == visibleTables.Keys + {index}
    ensures Visible(r, index) == !Visible(visibleTables, index)
    ensures forall j :: j in visibleTables && j != index ==> r[j] == visibleTables[j]
  {
    visibleTables[index := !Visible(visibleTables, index)]
  }

  /** Toggling one index never changes whether another index is visible. */
  lemma ToggleIsolated(visibleTables: map<nat, bool>, index: nat, other: nat)
    requires other != index
    ensures Visible(Toggle(visibleTables, index), other) == Visible(visibleTables, other)
  {
  }

  /** Toggling the same index twice restores its visibility; the map itself
    * then holds an explicit entry where it may have had none. */
  lemma ToggleTwice(visibleTables: map<nat, bool>, index: nat)
    ensures forall j :: Visible(Toggle(Toggle(visibleTables, index), index), j) == Visible(visibleTables, j)
    ensures Toggle(Toggle(visibleTables, index), index) == visibleTables[index := Visible(visibleTables, index)]
  {
  }

  /** The table part of a response: the button label and the records shown
    * below it (none while collapsed, or when the table has nothing to format). */
  datatype TablePanel = TablePanel(buttonLabel: string, shown: seq<Record>)

  datatype View =
    | RequestView(text: string, urduNote: bool)
    | ResponseView(text: string, panel: Option<TablePanel>)

  /** `renderMessage(message, index)` with the current `visibleTables`. */
  function RenderMessage(m: Message, index: nat, visibleTables: map<nat, bool>): (v: View)
    ensures m.kind == Request ==> v == RequestView(m.text, m.isUrdu)
    ensures m.kind == Response ==> v.ResponseView? && v.text == m.text && (v.panel.Some? <==> m.table.Some?)
    ensures v.ResponseView? && v.panel.Some? ==>
      v.panel.value.buttonLabel == (if Visible(visibleTables, index) then HideTableLabel else ShowTableLabel)
    ensures v.ResponseView? && v.panel.Some? && v.panel.value.shown != [] ==>
      Visible(visibleTables, index) && FormatTableData(m.table) == Some(v.panel.value.shown)
  {
    if m.kind == Request then RequestView(m.text, m.isUrdu)
    else if m.table.None? then ResponseView(m.text, None)
    else
      var expanded := Visible(visibleTables, index);
      var records := FormatTableData(m.table);
      ResponseView(m.text, Some(TablePanel(
        if expanded then HideTableLabel else ShowTableLabel,
        if expanded && records.Some? then records.value else [])))
  }

  /** Toggling message `index` leaves how every other message renders as it was. */
  lemma {:induction false} ToggleRendersOthersUnchanged(m: Message, visibleTables: map<nat, bool>, index: nat, other: nat)
    requires other != index
    ensures RenderMessage(m, other, Toggle(visibleTables, index)) == RenderMessage(m, other, visibleTables)
  {
    ToggleIsolated(visibleTables, index, other);
  }

  /** Toggling a message twice renders it as before. */
  lemma {:induction false} ToggleTwiceRendersSame(m: Message, visibleTables: map<nat, bool>, index: nat)
    ensures RenderMessage(m, index, Toggle(Toggle(visibleTables, index), index)) == RenderMessage(m, index, visibleTables)
  {
    ToggleTwice(visibleTables, index);
  }

  /** A response with a table whose rows are non-empty shows all of its
    * records exactly when its index is visible. */
  lemma {:induction false} ExpandedShowsEveryRecord(m: Message, index: nat, visibleTables: map<nat, bool>)
    requires m.kind == Response && FormatTableData(m.table).Some?
    ensures var v := RenderMessage(m, index, visibleTables);
      v.panel.Some? &&
      v.panel.value.shown == (if Visible(visibleTables, index) then FormatTableData(m.table).value else [])
  {
  }

  /** The three-user success reply renders its answer and SQL
    * trace, and expanding its table reveals three records. */
  lemma ThreeUsersScenario(index: nat)
    ensures
      var table := TableData(Some(["id"]),
        Some([map["id" := Value("1")], map["id" := Value("2")], map["id" := Value("3")]]));
      var m := ReplyMessage(Success("3 users found", "SELECT COUNT(*) FROM users", Some(table)));
      var v := RenderMessage(m, index, Toggle(map[], index));
      && v.text == "3 users found" + SqlTraceOpen + "SELECT COUNT(*) FROM users" + SqlTraceClose
      && v.panel.Some? && v.panel.value.buttonLabel == HideTableLabel
      && |v.panel.value.shown| == 3
  {
    ThreeUsersTable();
  }
}
