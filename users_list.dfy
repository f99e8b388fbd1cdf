/** The users table page (apps/users/static/users/js/users_list.js): the live
    filter over the rows, the "no results" row, the select-all checkbox, the
    per-row checkboxes and the bulk-update button. The table's rows are fixed;
    what the handlers change (row visibility, checkbox states, the counter,
    the extra row, the button) are the fields of `UsersListPage`. */
module UsersList {
  import opened Text

  /** A table row: its number of cells and its `data-*` attributes. A row with
      a single cell is the "no users" placeholder. */
  datatype Row = Row(cells: nat, nombre: string, cedula: string, correo: string, rol: string, estado: string)

  /** A user's row, with a checkbox; the placeholder row is neither filtered
      nor counted. */
  predicate DataRow(r: Row) {
    r.cells != 1
  }

  /** The row passes the search (a case-insensitive substring of the name, the
      cedula or the email) and both filters (empty, or equal). */
  predicate Matches(r: Row, search: string, rolValue: string, estadoValue: string) {
    var q := Lower(search);
    && (Contains(Lower(r.nombre), q) || Contains(Lower(r.cedula), q) || Contains(Lower(r.correo), q))
    && (rolValue == "" || r.rol == rolValue)
    && (estadoValue == "" || r.estado == estadoValue)
  }

  /** With an empty search and no filters, every row passes. */
  lemma MatchesEmpty(r: Row)
    ensures Matches(r, "", "", "")
  {
    assert Lower("") == "";
    assert "" <= Lower(r.nombre)[0..];
  }

  /** The rows among the first `n` that are data rows passing the filter. */
  function CountMatching(rows: seq<Row>, n: nat, search: string, rolValue: string, estadoValue: string): nat
    requires n <= |rows|
  {
    if n == 0 then 0
    else CountMatching(rows, n - 1, search, rolValue, estadoValue)
         + (if DataRow(rows[n - 1]) && Matches(rows[n - 1], search, rolValue, estadoValue) then 1 else 0)
  }

  /** The data rows among the first `n` that are shown. */
  function CountVisible(rows: seq<Row>, hidden: seq<bool>, n: nat): nat
    requires n <= |rows| == |hidden|
  {
    if n == 0 then 0 else CountVisible(rows, hidden, n - 1) + (if DataRow(rows[n - 1]) && !hidden[n - 1] then 1 else 0)
  }

  /** The data rows among the first `n` whose checkbox is checked. */
  function CountChecked(rows: seq<Row>, checked: seq<bool>, n: nat): nat
    requires n <= |rows| == |checked|
  {
    if n == 0 then 0 else CountChecked(rows, checked, n - 1) + (if DataRow(rows[n - 1]) && checked[n - 1] then 1 else 0)
  }

  /** The data rows among the first `n` that are shown and checked. */
  function CountVisibleChecked(rows: seq<Row>, hidden: seq<bool>, checked: seq<bool>, n: nat): nat
    requires n <= |rows| == |hidden| == |checked|
  {
    if n == 0 then 0
    else CountVisibleChecked(rows, hidden, checked, n - 1)
         + (if DataRow(rows[n - 1]) && !hidden[n - 1] && checked[n - 1] then 1 else 0)
  }

  /** Every shown data row among the first `n` is checked. */
  ghost predicate AllVisibleChecked(rows: seq<Row>, hidden: seq<bool>, checked: seq<bool>, n: nat)
    requires n <= |rows| == |hidden| == |checked|
  {
    forall i :: 0 <= i < n && DataRow(rows[i]) && !hidden[i] ==> checked[i]
  }

  /** Some data row among the first `n` is shown. */
  ghost predicate SomeVisible(rows: seq<Row>, hidden: seq<bool>, n: nat)
    requires n <= |rows| == |hidden|
  {
    exists i :: 0 <= i < n && DataRow(rows[i]) && !hidden[i]
  }

  /** Counting the checked shown boxes equals counting the shown ones exactly
      when every shown box is checked; and the count is positive exactly when
      some row is shown. */
  lemma {:induction false} CountVisibleCheckedAll(rows: seq<Row>, hidden: seq<bool>, checked: seq<bool>, n: nat)
    requires n <= |rows| == |hidden| == |checked|
    ensures CountVisibleChecked(rows, hidden, checked, n) <= CountVisible(rows, hidden, n)
    ensures CountVisibleChecked(rows, hidden, checked, n) == CountVisible(rows, hidden, n)
            <==> AllVisibleChecked(rows, hidden, checked, n)
    ensures CountVisible(rows, hidden, n) > 0 <==> SomeVisible(rows, hidden, n)
  {
    if n > 0 {
      CountVisibleCheckedAll(rows, hidden, checked, n - 1);
      if SomeVisible(rows, hidden, n - 1) {
        var i :| 0 <= i < n - 1 && DataRow(rows[i]) && !hidden[i];
        assert 0 <= i < n && DataRow(rows[i]) && !hidden[i];
      }
      if SomeVisible(rows, hidden, n) && !(DataRow(rows[n - 1]) && !hidden[n - 1]) {
        var i :| 0 <= i < n && DataRow(rows[i]) && !hidden[i];
        assert i < n - 1;
      }
    }
  }

  /** The rows' visibility after filtering: a data row is shown iff it passes. */
  ghost predicate Filtered(rows: seq<Row>, hidden: seq<bool>, n: nat, search: string, rolValue: string, estadoValue: string)
    requires n <= |rows| == |hidden|
  {
    forall i :: 0 <= i < n && DataRow(rows[i]) ==> hidden[i] == !Matches(rows[i], search, rolValue, estadoValue)
  }

  /** Once the rows are filtered, the shown data rows are those passing. */
  lemma {:induction false} CountVisibleFiltered(rows: seq<Row>, hidden: seq<bool>, n: nat,
                                                search: string, rolValue: string, estadoValue: string)
    requires n <= |rows| == |hidden|
    requires Filtered(rows, hidden, n, search, rolValue, estadoValue)
    ensures CountVisible(rows, hidden, n) == CountMatching(rows, n, search, rolValue, estadoValue)
  {
    if n > 0 {
      CountVisibleFiltered(rows, hidden, n - 1, search, rolValue, estadoValue);
    }
  }

  /** With an empty search and no filters, every data row passes. */
  lemma {:induction false} CountMatchingEmpty(rows: seq<Row>, n: nat)
    requires n <= |rows|
    ensures CountMatching(rows, n, "", "", "") == |set i | 0 <= i < n && DataRow(rows[i])|
  {
    if n > 0 {
      CountMatchingEmpty(rows, n - 1);
      MatchesEmpty(rows[n - 1]);
      DataRowsStep(rows, n);
    }
  }

  /** The data rows among the first `n` are those among the first `n - 1`, and
      the last one if it is a data row. */
  lemma DataRowsStep(rows: seq<Row>, n: nat)
    requires 0 < n <= |rows|
    ensures |set i | 0 <= i < n && DataRow(rows[i])|
            == |set i | 0 <= i < n - 1 && DataRow(rows[i])| + (if DataRow(rows[n - 1]) then 1 else 0)
  {
    var prev := set i | 0 <= i < n - 1 && DataRow(rows[i]);
    var all := set i | 0 <= i < n && DataRow(rows[i]);
    if DataRow(rows[n - 1]) {
      assert all == prev + {n - 1};
    } else {
      assert all == prev;
    }
  }

  /** Filtering with an empty search and no filters shows every data row. */
  lemma FilterEmptyShowsAll(rows: seq<Row>, hidden: seq<bool>)
    requires |rows| == |hidden|
    requires Filtered(rows, hidden, |rows|, "", "", "")
    ensures forall i :: 0 <= i < |rows| && DataRow(rows[i]) ==> !hidden[i]
  {
    forall i | 0 <= i < |rows| && DataRow(rows[i]) ensures !hidden[i] {
      MatchesEmpty(rows[i]);
    }
  }

  /** `"Actualizar (" + n + ")"`. */
  function BulkLabel(n: nat): string {
    "Actualizar (" + IntToString(n) + ")"
  }

  class UsersListPage {
    const rows: seq<Row>
    /** `style.display == 'none'` for each row. */
    var hidden: seq<bool>
    /** The state of each row's checkbox (unused for the placeholder row). */
    var checked: seq<bool>
    /** The `showingCount` text. */
    var showingCount: nat
    /** How many "no results" rows the table body holds. */
    var noResults: nat
    var selectAll: bool
    /** The bulk-update button: shown, and its label. */
    var bulkShown: bool
    var bulkLabel: string

    ghost predicate Valid()
      reads this
    {
      |hidden| == |rows| && |checked| == |rows| && noResults <= 1
    }

    /** The page as loaded: every row shown, nothing selected. */
    constructor (rows: seq<Row>)
      ensures Valid() && this.rows == rows
      ensures hidden == seq(|rows|, _ => false) && checked == seq(|rows|, _ => false)
      ensures noResults == 0 && !selectAll && !bulkShown
    {
      this.rows := rows;
      hidden := seq(|rows|, _ => false);
      checked := seq(|rows|, _ => false);
      showingCount := |rows|;
      noResults := 0;
      selectAll := false;
      bulkShown := false;
      bulkLabel := "";
    }

    /** `filterTable`: every data row is shown iff it passes the search and the
        filters (the placeholder row is left alone), the counter shows how many
        are shown, and the "no results" row is there iff none is. */
    method FilterTable(search: string, rolValue: string, estadoValue: string)
      requires Valid()
      modifies this
      ensures Valid()
      ensures forall i :: 0 <= i < |rows| ==>
        hidden[i] == if DataRow(rows[i]) then !Matches(rows[i], search, rolValue, estadoValue) else old(hidden[i])
      ensures showingCount == CountMatching(rows, |rows|, search, rolValue, estadoValue)
      ensures showingCount == CountVisible(rows, hidden, |rows|)
      ensures noResults == if showingCount == 0 then 1 else 0
      ensures checked == old(checked) && selectAll == old(selectAll)
      ensures bulkShown == old(bulkShown) && bulkLabel == old(bulkLabel)
    {
      var visibleCount := 0;
      var i := 0;
      while i < |rows|
        invariant 0 <= i <= |rows| && |hidden| == |rows|
        invariant forall j :: 0 <= j < i ==>
          hidden[j] == if DataRow(rows[j]) then !Matches(rows[j], search, rolValue, estadoValue) else old(hidden[j])
        invariant forall j :: i <= j < |rows| ==> hidden[j] == old(hidden[j])
        invariant visibleCount == CountMatching(rows, i, search, rolValue, estadoValue)
        invariant checked == old(checked) && noResults == old(noResults)
        invariant selectAll == old(selectAll) && bulkShown == old(bulkShown) && bulkLabel == old(bulkLabel)
      {
        if DataRow(rows[i]) {
          if Matches(rows[i], search, rolValue, estadoValue) {
            hidden := hidden[i := false];
            visibleCount := visibleCount + 1;
          } else {
            hidden := hidden[i := true];
          }
        }
        i := i + 1;
      }
      showingCount := visibleCount;
      CountVisibleFiltered(rows, hidden, |rows|, search, rolValue, estadoValue);
      ShowNoResults(visibleCount == 0);
    }

    /** `showNoResults`: adds the row when asked and absent, removes it when
        not asked and present. */
    method ShowNoResults(show: bool)
      requires Valid()
      modifies this`noResults
      ensures Valid()
      ensures noResults == if show then (if old(noResults) == 0 then 1 else old(noResults)) else 0
    {
      if show {
        if noResults == 0 {
          noResults := 1;
        }
      } else {
        if noResults > 0 {
          noResults := noResults - 1;
        }
      }
    }

    /** `updateBulkActions`: the button is shown iff some box is checked, and
        then labelled with how many. */
    method UpdateBulkActions()
      requires Valid()
      modifies this`bulkShown, this`bulkLabel
      ensures Valid()
      ensures bulkShown <==> CountChecked(rows, checked, |rows|) > 0
      ensures bulkLabel == if bulkShown then BulkLabel(CountChecked(rows, checked, |rows|)) else old(bulkLabel)
    {
      var n := 0;
      var i := 0;
      while i < |rows|
        invariant 0 <= i <= |rows|
        invariant n == CountChecked(rows, checked, i)
      {
        if DataRow(rows[i]) && checked[i] {
          n := n + 1;
        }
        i := i + 1;
      }
      if n > 0 {
        bulkShown := true;
        bulkLabel := BulkLabel(n);
      } else {
        bulkShown := false;
      }
    }

    /** The select-all handler: the shown boxes take its state, the hidden ones
        keep theirs; then the bulk button is updated. */
    method SelectAllChanged(value: bool)
      requires Valid()
      modifies this
      ensures Valid()
      ensures selectAll == value
      ensures forall i :: 0 <= i < |rows| ==>
        checked[i] == if DataRow(rows[i]) && !hidden[i] then value else old(checked[i])
      ensures value ==> AllVisibleChecked(rows, hidden, checked, |rows|)
      ensures hidden == old(hidden) && showingCount == old(showingCount) && noResults == old(noResults)
      ensures bulkShown <==> CountChecked(rows, checked, |rows|) > 0
    {
      selectAll := value;
      var i := 0;
      while i < |rows|
        invariant 0 <= i <= |rows| && |checked| == |rows| && |old(checked)| == |rows| && |hidden| == |rows|
        invariant forall j :: 0 <= j < i ==>
          checked[j] == if DataRow(rows[j]) && !hidden[j] then value else old(checked[j])
        invariant forall j :: i <= j < |rows| ==> checked[j] == old(checked[j])
        invariant hidden == old(hidden) && showingCount == old(showingCount) && noResults == old(noResults)
        invariant selectAll == value
      {
        if DataRow(rows[i]) && !hidden[i] {
          checked := checked[i := value];
        }
        i := i + 1;
      }
      UpdateBulkActions();
    }

    /** The shown boxes, and how many of them are checked. */
    method CountVisibleBoxes() returns (visible: nat, visibleChecked: nat)
      requires Valid()
      ensures visible == CountVisible(rows, hidden, |rows|)
      ensures visibleChecked == CountVisibleChecked(rows, hidden, checked, |rows|)
    {
      visible, visibleChecked := 0, 0;
      var i := 0;
      while i < |rows|
        invariant 0 <= i <= |rows|
        invariant visible == CountVisible(rows, hidden, i)
        invariant visibleChecked == CountVisibleChecked(rows, hidden, checked, i)
      {
        if DataRow(rows[i]) && !hidden[i] {
          visible := visible + 1;
          if checked[i] {
            visibleChecked := visibleChecked + 1;
          }
        }
        i := i + 1;
      }
    }

    /** A row's checkbox is set to `value`; the bulk button is updated, and
        select-all is checked iff every shown box is checked and one is shown. */
    method CheckboxChanged(k: nat, value: bool)
      requires Valid() && k < |rows| && DataRow(rows[k])
      modifies this
      ensures Valid()
      ensures checked == old(checked)[k := value]
      ensures hidden == old(hidden) && showingCount == old(showingCount) && noResults == old(noResults)
      ensures bulkShown <==> CountChecked(rows, checked, |rows|) > 0
      ensures selectAll <==> AllVisibleChecked(rows, hidden, checked, |rows|) && SomeVisible(rows, hidden, |rows|)
    {
      checked := checked[k := value];
      UpdateBulkActions();
      var visible, visibleChecked := CountVisibleBoxes();
      selectAll := visibleChecked == visible && visible > 0;
      CountVisibleCheckedAll(rows, hidden, checked, |rows|);
    }
  }
}
