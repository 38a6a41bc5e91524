/** The client's `formatMessageText`: each emoticon of a fixed table is
    replaced by its emoji everywhere in the text, one table entry after the
    other in the table's order. */
module ChatFormat {
  import opened Strings

  datatype Emoticon = Emoticon(key: string, emoji: string)

  /** The emoticon table, in its declared order. */
  const Emoticons: seq<Emoticon> := [
    Emoticon(":)", "\U{1F60A}"),
    Emoticon(":-)", "\U{1F60A}"),
    Emoticon(":(", "\U{1F61E}"),
    Emoticon(":-(", "\U{1F61E}"),
    Emoticon(":D", "\U{1F603}"),
    Emoticon(":-D", "\U{1F603}"),
    Emoticon(";)", "\U{1F609}"),
    Emoticon(";-)", "\U{1F609}"),
    Emoticon(":P", "\U{1F60B}"),
    Emoticon(":-P", "\U{1F60B}"),
    Emoticon("<3", "\U{2764}\U{FE0F}"),
    Emoticon(":heart:", "\U{2764}\U{FE0F}"),
    Emoticon(":thumbsup:", "\U{1F44D}"),
    Emoticon(":thumbsdown:", "\U{1F44E}")
  ]

  predicate NonEmptyKeys(table: seq<Emoticon>)
  {
    forall i :: 0 <= i < |table| ==> table[i].key != []
  }

  /** The text after replacing the entries of `table` in order: the last
      entry is applied to the result of all the earlier ones. */
  function ApplyAll(text: string, table: seq<Emoticon>): string
    requires NonEmptyKeys(table)
    decreases |table|
  {
    if table == [] then text
    else
      var last := table[|table| - 1];
      ReplaceAll(ApplyAll(text, table[..|table| - 1]), last.key, last.emoji)
  }

  lemma TableKeysNonEmpty()
    ensures NonEmptyKeys(Emoticons)
  {
  }

  /** `formatMessageText(text)`. */
  method FormatMessageText(text: string) returns (formatted: string)
    ensures formatted == ApplyAll(text, Emoticons)
  {
    TableKeysNonEmpty();
    formatted := text;
    for i := 0 to |Emoticons|
      invariant formatted == ApplyAll(text, Emoticons[..i])
    {
      assert Emoticons[..i + 1][..i] == Emoticons[..i];
      formatted := ReplaceAll(formatted, Emoticons[i].key, Emoticons[i].emoji);
    }
    assert Emoticons[..|Emoticons|] == Emoticons;
  }

  /** Text in which no emoticon occurs is shown as written. */
  lemma {:induction false} NoEmoticonUnchanged(text: string, table: seq<Emoticon>)
    requires NonEmptyKeys(table)
    requires forall i :: 0 <= i < |table| ==> !Occurs(text, table[i].key)
    ensures ApplyAll(text, table) == text
    decreases |table|
  {
    if table != [] {
      var front := table[..|table| - 1];
      NoEmoticonUnchanged(text, front);
      var last := table[|table| - 1];
      ReplaceAllAbsent(text, last.key, last.emoji);
    }
  }

  /** Every character of `s` is ASCII. */
  predicate Ascii(s: string)
  {
    forall i :: 0 <= i < |s| ==> s[i] < '\U{0080}'
  }

  /** Every character of `s` lies outside ASCII. */
  predicate BeyondAscii(s: string)
  {
    forall i :: 0 <= i < |s| ==> '\U{0080}' <= s[i]
  }

  /** The keys are ASCII and the emoji are not, so no emoji can contribute
      to an occurrence of any key. */
  predicate Separated(table: seq<Emoticon>)
  {
    && (forall i :: 0 <= i < |table| ==> Ascii(table[i].key) && table[i].key != [])
    && (forall i :: 0 <= i < |table| ==> BeyondAscii(table[i].emoji) && table[i].emoji != [])
  }

  lemma TableSeparated()
    ensures Separated(Emoticons)
  {
    KeysAscii();
    EmojiBeyondAscii();
  }

  lemma KeysAscii()
    ensures forall i :: 0 <= i < |Emoticons| ==> Ascii(Emoticons[i].key) && Emoticons[i].key != []
  {
  }

  lemma EmojiBeyondAscii()
    ensures forall i :: 0 <= i < |Emoticons| ==> BeyondAscii(Emoticons[i].emoji) && Emoticons[i].emoji != []
  {
  }

  lemma SeparatedDisjoint(rep: string, key: string)
    requires BeyondAscii(rep) && Ascii(key)
    ensures Disjoint(rep, key)
  {
    forall c | c in rep ensures c !in key {
      var i :| 0 <= i < |rep| && rep[i] == c;
      assert '\U{0080}' <= c;
    }
  }

  /** After the whole table has been applied no key is left in the text. */
  lemma {:induction false} ApplyAllRemovesKeys(text: string, table: seq<Emoticon>)
    requires Separated(table)
    ensures forall i :: 0 <= i < |table| ==> !Occurs(ApplyAll(text, table), table[i].key)
    decreases |table|
  {
    if table != [] {
      var n := |table| - 1;
      var front := table[..n];
      var last := table[n];
      assert Separated(front);
      ApplyAllRemovesKeys(text, front);
      var before := ApplyAll(text, front);
      var after := ReplaceAll(before, last.key, last.emoji);
      forall i | 0 <= i < |table| ensures !Occurs(after, table[i].key) {
        SeparatedDisjoint(last.emoji, table[i].key);
        if i == n {
          ReplaceAllRemoves(before, last.key, last.emoji);
        } else {
          assert !Occurs(before, table[i].key) by {
            assert front[i] == table[i];
          }
          if Occurs(after, table[i].key) {
            ReplaceAllNoNewOccurrence(before, last.key, last.emoji, table[i].key);
          }
        }
      }
    }
  }

  /** The formatted text holds none of the emoticon keys. */
  lemma FormattedHasNoEmoticon(text: string)
    ensures forall i :: 0 <= i < |Emoticons| ==> !Occurs(ApplyAll(text, Emoticons), Emoticons[i].key)
  {
    TableSeparated();
    ApplyAllRemovesKeys(text, Emoticons);
  }
}
