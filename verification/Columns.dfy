/**
 What changes put into an entity, column by column. The statements speak of
 columns, fields and texts by their positions, not of the functions that
 the handler computes with.
 */
module Columns {
  import opened Prelude
  import opened VersionedRows
  import opened BlockEffects
  import Sq = Squash

  // ---------------------------------------------------------------------
  // One change
  // ---------------------------------------------------------------------

  /** Each name that the fields give a text and that a column reads holds the reading, by the
      last column of the name, of the last text of the name; every other name is as before. */
  ghost predicate Takes(columns: seq<Column>, fs: seq<Sq.Field>, before: Fields, after: Fields) {
    && (forall i, f | 0 <= i < |columns| && 0 <= f < |fs| && columns[i].kind.Reads? && fs[f].name == columns[i].name
          && (forall j | i < j < |columns| && columns[j].kind.Reads? :: columns[j].name != columns[i].name)
          && (forall g | f < g < |fs| :: fs[g].name != fs[f].name) ::
          fs[f].name in after && after[fs[f].name] == columns[i].kind.read(fs[f].newValue))
    && (forall n |
          (forall i, f | 0 <= i < |columns| && 0 <= f < |fs| && columns[i].kind.Reads? ::
             columns[i].name != n || fs[f].name != n) ::
          (n in after <==> n in before) && (n in before ==> after[n] == before[n]))
  }

  /** No column that the fields give a text refuses it or finds it invalid. */
  ghost predicate Agreeable(columns: seq<Column>, fs: seq<Sq.Field>) {
    forall i, f | 0 <= i < |columns| && 0 <= f < |fs| && fs[f].name == columns[i].name
      && (forall g | f < g < |fs| :: fs[g].name != fs[f].name) ::
      !columns[i].kind.Refuses? && (columns[i].kind.Reads? ==> columns[i].kind.valid(fs[f].newValue))
  }

  /** The last field of a name gives its text. */
  lemma {:induction false} TextOf(fs: seq<Sq.Field>, f: nat)
    requires f < |fs| && forall g | f < g < |fs| :: fs[g].name != fs[f].name
    ensures fs[f].name in Texts(fs) && Texts(fs)[fs[f].name] == fs[f].newValue
  {
    var m := |fs| - 1;
    if f < m {
      TextOf(fs[..m], f);
    }
  }

  lemma {:induction false} TextFrom(fs: seq<Sq.Field>, n: string) returns (f: nat)
    requires n in Texts(fs)
    ensures f < |fs| && fs[f].name == n && forall g | f < g < |fs| :: fs[g].name != n
  {
    var m := |fs| - 1;
    if fs[m].name == n {
      f := m;
    } else {
      f := TextFrom(fs[..m], n);
    }
  }

  lemma {:induction false} NamedHasText(fs: seq<Sq.Field>, f: nat)
    requires f < |fs|
    ensures fs[f].name in Texts(fs)
  {
    if f < |fs| - 1 {
      NamedHasText(fs[..|fs| - 1], f);
    }
  }

  lemma {:induction false} ReadingOf(columns: seq<Column>, texts: Fields, i: nat)
    requires i < |columns| && columns[i].kind.Reads? && columns[i].name in texts
    requires forall j | i < j < |columns| && columns[j].kind.Reads? :: columns[j].name != columns[i].name
    ensures columns[i].name in Readings(columns, texts)
    ensures Readings(columns, texts)[columns[i].name] == columns[i].kind.read(texts[columns[i].name])
  {
    if i < |columns| - 1 {
      ReadingOf(columns[..|columns| - 1], texts, i);
    }
  }

  lemma {:induction false} ReadingFrom(columns: seq<Column>, texts: Fields, n: string)
    requires n in Readings(columns, texts)
    ensures n in texts && exists i :: 0 <= i < |columns| && columns[i].kind.Reads? && columns[i].name == n
  {
    var m := |columns| - 1;
    if columns[m].kind.Reads? && columns[m].name in texts && columns[m].name == n {
    } else {
      ReadingFrom(columns[..m], texts, n);
    }
  }

  lemma OverwriteGives(columns: seq<Column>, fields: Fields, fs: seq<Sq.Field>, i: nat, f: nat)
    requires i < |columns| && f < |fs| && columns[i].kind.Reads? && fs[f].name == columns[i].name
    requires forall j | i < j < |columns| && columns[j].kind.Reads? :: columns[j].name != columns[i].name
    requires forall g | f < g < |fs| :: fs[g].name != fs[f].name
    ensures var after := Overwrite(columns, fields, Sq.AsMap(fs));
            fs[f].name in after && after[fs[f].name] == columns[i].kind.read(fs[f].newValue)
  {
    hide Texts, Readings, Overwrite;
    OverwriteReads(columns, fields, fs);
    TextOf(fs, f);
    ReadingOf(columns, Texts(fs), i);
  }

  lemma OverwriteKeeps(columns: seq<Column>, fields: Fields, fs: seq<Sq.Field>, n: string)
    requires forall i, f | 0 <= i < |columns| && 0 <= f < |fs| && columns[i].kind.Reads? ::
               columns[i].name != n || fs[f].name != n
    ensures var after := Overwrite(columns, fields, Sq.AsMap(fs));
            (n in after <==> n in fields) && (n in fields ==> after[n] == fields[n])
  {
    hide Texts, Readings, Overwrite;
    OverwriteReads(columns, fields, fs);
    if n in Readings(columns, Texts(fs)) {
      ReadingFrom(columns, Texts(fs), n);
      var f := TextFrom(fs, n);
    }
  }

  lemma OverwriteTakes(columns: seq<Column>, fields: Fields, fs: seq<Sq.Field>)
    ensures Takes(columns, fs, fields, Overwrite(columns, fields, Sq.AsMap(fs)))
  {
    hide Overwrite, Sq.AsMap;
    var after := Overwrite(columns, fields, Sq.AsMap(fs));
    forall i, f | 0 <= i < |columns| && 0 <= f < |fs| && columns[i].kind.Reads? && fs[f].name == columns[i].name
                  && (forall j | i < j < |columns| && columns[j].kind.Reads? :: columns[j].name != columns[i].name)
                  && (forall g | f < g < |fs| :: fs[g].name != fs[f].name)
      ensures fs[f].name in after && after[fs[f].name] == columns[i].kind.read(fs[f].newValue)
    {
      OverwriteGives(columns, fields, fs, i, f);
    }
    forall n | forall i, f | 0 <= i < |columns| && 0 <= f < |fs| && columns[i].kind.Reads? ::
                 columns[i].name != n || fs[f].name != n
      ensures (n in after <==> n in fields) && (n in fields ==> after[n] == fields[n])
    {
      OverwriteKeeps(columns, fields, fs, n);
    }
  }

  lemma OverwriteReads(columns: seq<Column>, fields: Fields, fs: seq<Sq.Field>)
    ensures Overwrite(columns, fields, Sq.AsMap(fs)) == fields + Readings(columns, Texts(fs))
  {
  }

  lemma RejectsIff(columns: seq<Column>, fs: seq<Sq.Field>, i: nat, f: nat)
    requires i < |columns| && f < |fs| && forall g | f < g < |fs| :: fs[g].name != fs[f].name
    requires fs[f].name == columns[i].name
    ensures Rejects(columns[i], Texts(fs)) <==>
            columns[i].kind.Refuses? || (columns[i].kind.Reads? && !columns[i].kind.valid(fs[f].newValue))
  {
    TextOf(fs, f);
  }

  lemma AcceptableIff(columns: seq<Column>, fs: seq<Sq.Field>)
    ensures Acceptable(columns, Texts(fs)) <==> Agreeable(columns, fs)
  {
    hide Texts, Column.Accepts;
    forall i, f | 0 <= i < |columns| && 0 <= f < |fs| && fs[f].name == columns[i].name
                  && (forall g | f < g < |fs| :: fs[g].name != fs[f].name)
      ensures Rejects(columns[i], Texts(fs)) <==>
              columns[i].kind.Refuses? || (columns[i].kind.Reads? && !columns[i].kind.valid(fs[f].newValue))
    {
      RejectsIff(columns, fs, i, f);
    }
    forall i | 0 <= i < |columns| && Rejects(columns[i], Texts(fs))
      ensures exists f :: 0 <= f < |fs| && fs[f].name == columns[i].name
                          && forall g | f < g < |fs| :: fs[g].name != fs[f].name
    {
      var f := TextFrom(fs, columns[i].name);
    }
  }

  /** Application stops behind the first column that does not agree. */
  lemma StopsAt(columns: seq<Column>, fields: Fields, fs: seq<Sq.Field>) returns (m: nat)
    requires !Agreeable(columns, fs)
    ensures m < |columns| && Agreeable(columns[..m], fs) && !Agreeable(columns[..m + 1], fs)
    ensures Takes(columns[..m + 1], fs, fields, PartlyOverwrite(columns, fields, Sq.AsMap(fs)))
  {
    hide Texts, Agreeable, Takes, Overwrite, Rejects;
    AcceptableIff(columns, fs);
    var texts := Texts(fs);
    VisitedRejects(columns, texts);
    m := Visited(columns, texts) - 1;
    AcceptableIff(columns[..m], fs);
    AcceptableIff(columns[..m + 1], fs);
    assert Rejects(columns[..m + 1][m], texts);
    OverwriteTakes(columns[..m + 1], fields, fs);
    PartlyReads(columns, fields, fs);
  }

  lemma PartlyReads(columns: seq<Column>, fields: Fields, fs: seq<Sq.Field>)
    ensures PartlyOverwrite(columns, fields, Sq.AsMap(fs))
            == Overwrite(columns[..Visited(columns, Texts(fs))], fields, Sq.AsMap(fs))
  {
  }

  lemma {:induction false} VisitedRejects(columns: seq<Column>, texts: Fields)
    requires !Acceptable(columns, texts)
    ensures var m := Visited(columns, texts);
            0 < m && Rejects(columns[m - 1], texts) && Acceptable(columns[..m - 1], texts)
  {
    if columns != [] && !Rejects(columns[0], texts) {
      var rest := columns[1..];
      assert forall i | 0 <= i < |rest| :: rest[i] == columns[i + 1];
      VisitedRejects(rest, texts);
      var m := Visited(rest, texts);
      assert forall i | 0 < i < m :: columns[..m][i] == rest[..m - 1][i - 1];
    }
  }

  // ---------------------------------------------------------------------
  // The changes of one row, in turn
  // ---------------------------------------------------------------------

  /** The texts that a run of changes leaves: the last of each name. */
  function AllTexts(s: seq<Sq.Change>): Fields {
    if s == [] then map[] else AllTexts(s[..|s| - 1]) + Texts(s[|s| - 1].fields)
  }

  /** Overwriting with each change in turn is reading the last text of each name. */
  lemma {:induction false} OverwriteAllReads(columns: seq<Column>, fields: Fields, s: seq<Sq.Change>)
    ensures OverwriteAll(columns, fields, s) == fields + Readings(columns, AllTexts(s))
  {
    if s == [] {
      assert Readings(columns, map[]) == map[] by { ReadingsOfSum(columns, map[], map[]); }
    } else {
      var init, fs := s[..|s| - 1], s[|s| - 1].fields;
      hide Readings, Texts;
      OverwriteAllReads(columns, fields, init);
      OverwriteReads(columns, OverwriteAll(columns, fields, init), fs);
      ReadingsOfSum(columns, AllTexts(init), Texts(fs));
      SumAssoc(fields, Readings(columns, AllTexts(init)), Readings(columns, Texts(fs)));
    }
  }

  lemma SumAssoc(a: Fields, b: Fields, c: Fields)
    ensures a + b + c == a + (b + c)
  {
  }

  /** The last change that names n gives its text. */
  lemma {:induction false} AllTextsFrom(s: seq<Sq.Change>, n: string) returns (p: nat, f: nat)
    requires n in AllTexts(s)
    ensures p < |s| && f < |s[p].fields| && s[p].fields[f].name == n
    ensures forall g | f < g < |s[p].fields| :: s[p].fields[g].name != n
    ensures forall q, g | p < q < |s| && 0 <= g < |s[q].fields| :: s[q].fields[g].name != n
    ensures AllTexts(s)[n] == s[p].fields[f].newValue
  {
    hide Texts;
    var m := |s| - 1;
    if n in Texts(s[m].fields) {
      p := m;
      f := TextFrom(s[m].fields, n);
      TextOf(s[m].fields, f);
    } else {
      p, f := AllTextsFrom(s[..m], n);
      forall g | 0 <= g < |s[m].fields|
        ensures s[m].fields[g].name != n
      {
        NamedHasText(s[m].fields, g);
      }
    }
  }

  lemma {:induction false} NamedIsInAllTexts(s: seq<Sq.Change>, p: nat, f: nat)
    requires p < |s| && f < |s[p].fields|
    ensures s[p].fields[f].name in AllTexts(s)
  {
    hide Texts;
    var m := |s| - 1;
    if p == m {
      NamedHasText(s[m].fields, f);
    } else {
      NamedIsInAllTexts(s[..m], p, f);
    }
  }

  /** In a sorted run, the text of n is that of the change to the row with the highest
      ordinal among those that name n. */
  lemma HighestGivesText(s: seq<Sq.Change>, c: Sq.Change, f: nat)
    requires Sq.Sorted(s) && c in s && f < |c.fields|
    requires forall g | f < g < |c.fields| :: c.fields[g].name != c.fields[f].name
    requires forall d, g | d in s && d != c && 0 <= g < |d.fields| && d.fields[g].name == c.fields[f].name ::
               d.ordinal < c.ordinal
    ensures c.fields[f].name in AllTexts(s) && AllTexts(s)[c.fields[f].name] == c.fields[f].newValue
  {
    hide AllTexts;
    var j :| 0 <= j < |s| && s[j] == c;
    var n := c.fields[f].name;
    NamedIsInAllTexts(s, j, f);
    var p, h := AllTextsFrom(s, n);
    assert j <= p;
    assert s[p] in s && s[j].ordinal <= s[p].ordinal;
    assert s[p] == c;
  }
}
