/** The `key: value` line parser of YmlConfigReader, shared by every front-matter reader. */
module YmlConfig {
  import opened Wrappers
  import opened JavaLang

  /** `java.util.Properties` holding string keys and values. */
  type Properties = map<string, string>

  datatype Entry = Entry(key: string, value: string)

  /**
   * YmlConfigReader.readLine: no entry for an empty line or a comment, an error
   * for a line that starts with ':' or has no ':' at all, otherwise the trimmed
   * text on either side of the first ':'.
   */
  function ReadLine(line: string): Result<Option<Entry>, Exception>
  {
    if line == "" then Success(None)
    else
      var t := Trim(line);
      if StartsWith(t, "#") then Success(None)
      else if StartsWith(t, ":") then Failure(CorruptYml)
      else
        var index := IndexOfChar(t, ':');
        if index < 0 then Failure(StringIndexOutOfBounds)
        else
          var name := Trim(t[..index]);
          var value := if index + 1 < |t| then Trim(t[index + 1..]) else "";
          Success(Some(Entry(name, value)))
  }

  /** The outcomes of readLine, case by case. */
  lemma ReadLineSpec(line: string)
    ensures line == "" ==> ReadLine(line) == Success(None)
    ensures line != "" && StartsWith(Trim(line), "#") ==> ReadLine(line) == Success(None)
    ensures line != "" && StartsWith(Trim(line), ":") ==> ReadLine(line) == Failure(CorruptYml)
    ensures line != "" && !StartsWith(Trim(line), "#") && ':' !in Trim(line) ==>
      ReadLine(line) == Failure(StringIndexOutOfBounds)
    ensures ReadLine(line).Success? && ReadLine(line).value.Some? ==>
      var t := Trim(line);
      exists i :: 0 < i < |t| && t[i] == ':' && ':' !in t[..i] &&
        ReadLine(line).value.value == Entry(Trim(t[..i]), Trim(t[i + 1..]))
  {
    var t := Trim(line);
    var index := IndexOfChar(t, ':');
    if line != "" && !StartsWith(t, "#") && !StartsWith(t, ":") && index >= 0 {
      assert index + 1 == |t| ==> t[index + 1..] == "";
      assert ':' !in t[..index] by {
        forall k | 0 <= k < index ensures t[..index][k] != ':' { assert t[..index][k] == t[k]; }
      }
    }
  }

  /** The line defines `key` with `value`. */
  predicate Defines(line: string, key: string, value: string)
  {
    ReadLine(line) == Success(Some(Entry(key, value)))
  }

  /** The line defines `key`, with whatever value. */
  predicate HasKey(line: string, key: string)
  {
    var r := ReadLine(line);
    r.Success? && r.value.Some? && r.value.value.key == key
  }

  /** Every line through readLine, in order, stopping at the first failure. */
  function ReadAll(lines: seq<string>): Result<seq<Option<Entry>>, Exception>
  {
    if |lines| == 0 then Success([])
    else
      var e :- ReadLine(lines[0]);
      var rest :- ReadAll(lines[1..]);
      Success([e] + rest)
  }

  /**
   * The entries of every line when all lines parse, otherwise the error of the
   * first line that does not.
   */
  lemma {:induction false} ReadAllSpec(lines: seq<string>)
    ensures var r := ReadAll(lines);
      r.Success? ==>
        |r.value| == |lines| && forall i :: 0 <= i < |lines| ==> ReadLine(lines[i]) == Success(r.value[i])
    ensures var r := ReadAll(lines);
      r.Failure? ==>
        exists i :: 0 <= i < |lines| && ReadLine(lines[i]) == Failure(r.error) &&
          forall j :: 0 <= j < i ==> ReadLine(lines[j]).Success?
  {
    if |lines| > 0 && ReadLine(lines[0]).Success? {
      ReadAllSpec(lines[1..]);
      assert forall i :: 1 <= i < |lines| ==> lines[i] == lines[1..][i - 1];
      var r := ReadAll(lines);
      if r.Failure? {
        var k :| 0 <= k < |lines| - 1 && ReadLine(lines[1..][k]) == Failure(r.error) &&
          forall j :: 0 <= j < k ==> ReadLine(lines[1..][j]).Success?;
        assert ReadLine(lines[k + 1]) == Failure(r.error);
        assert forall j :: 0 <= j < k + 1 ==> ReadLine(lines[j]).Success? by {
          forall j | 0 <= j < k + 1 ensures ReadLine(lines[j]).Success? {
            if j > 0 { assert lines[j] == lines[1..][j - 1]; }
          }
        }
      } else {
        forall i | 0 <= i < |lines| ensures ReadLine(lines[i]) == Success(r.value[i]) {
          if i > 0 { assert lines[i] == lines[1..][i - 1]; }
        }
      }
    } else if |lines| > 0 {
      assert ReadLine(lines[0]) == Failure(ReadAll(lines).error);
    }
  }

  /** `Properties.put` of an entry, when readLine returned one. */
  function Put(props: Properties, e: Option<Entry>): Properties
  {
    if e.Some? then props[e.value.key := e.value.value] else props
  }

  /** The entries stored into an initially empty `Properties`, in order. */
  function Store(es: seq<Option<Entry>>): Properties
  {
    if |es| == 0 then map[] else Put(Store(es[..|es| - 1]), es[|es| - 1])
  }

  /**
   * YmlConfigReader.readLines: every line through readLine, each entry stored in
   * turn; the first failing line aborts the whole read.
   */
  function ReadLines(lines: seq<string>): Result<Properties, Exception>
  {
    var es :- ReadAll(lines);
    Success(Store(es))
  }

  /** Entry `i` names `key`. */
  predicate Names(es: seq<Option<Entry>>, i: int, key: string)
    requires 0 <= i < |es|
  {
    es[i].Some? && es[i].value.key == key
  }

  /** A stored key comes from the last entry that names it. */
  lemma {:induction false} StoreLastWins(es: seq<Option<Entry>>, key: string)
    ensures key in Store(es) <==> exists i :: 0 <= i < |es| && Names(es, i, key)
    ensures key in Store(es) ==>
      exists i :: 0 <= i < |es| && es[i] == Some(Entry(key, Store(es)[key])) &&
        forall j :: i < j < |es| ==> !Names(es, j, key)
  {
    if |es| > 0 {
      var init := es[..|es| - 1];
      var n := |es| - 1;
      StoreLastWins(init, key);
      assert forall i :: 0 <= i < n ==> init[i] == es[i] && (Names(init, i, key) <==> Names(es, i, key));
      if Names(es, n, key) {
        assert es[n] == Some(Entry(key, Store(es)[key]));
      } else {
        assert key in Store(es) <==> key in Store(init);
        assert key in Store(es) ==> Store(es)[key] == Store(init)[key];
        if key in Store(es) {
          var i :| 0 <= i < n && init[i] == Some(Entry(key, Store(init)[key])) &&
            forall j :: i < j < n ==> !Names(init, j, key);
          assert es[i] == Some(Entry(key, Store(es)[key]));
        }
        if i :| 0 <= i < |es| && Names(es, i, key) {
          assert i < n && Names(init, i, key);
        }
      }
    }
  }

  /** readLines fails exactly when some line fails, with the first such line's error. */
  lemma ReadLinesFails(lines: seq<string>)
    ensures ReadLines(lines).Failure? <==> exists i :: 0 <= i < |lines| && ReadLine(lines[i]).Failure?
    ensures ReadLines(lines).Failure? ==>
      exists i :: 0 <= i < |lines| && ReadLine(lines[i]) == Failure(ReadLines(lines).error) &&
        forall j :: 0 <= j < i ==> ReadLine(lines[j]).Success?
  {
    ReadAllSpec(lines);
  }

  /** Reading one more line at the end. */
  lemma {:induction false} ReadAllSnoc(a: seq<string>, line: string)
    ensures ReadAll(a + [line]) ==
      (var es :- ReadAll(a);
       var e :- ReadLine(line);
       Success(es + [e]))
  {
    if |a| == 0 {
      assert a + [line] == [line];
      assert ReadAll([line][1..]) == Success([]);
      if ReadLine(line).Success? {
        var e := ReadLine(line).value;
        assert [] + [e] == [e] && [e] + [] == [e];
        assert ReadAll([line]) == Success([e]);
      }
    } else {
      assert (a + [line])[1..] == a[1..] + [line];
      ReadAllSnoc(a[1..], line);
      if ReadLine(a[0]).Success? && ReadAll(a[1..]).Success? && ReadLine(line).Success? {
        assert [ReadLine(a[0]).value] + (ReadAll(a[1..]).value + [ReadLine(line).value]) ==
          ([ReadLine(a[0]).value] + ReadAll(a[1..]).value) + [ReadLine(line).value];
      }
    }
  }

  /** readLines on one more line: that line's entry is stored last. */
  lemma ReadLinesSnoc(a: seq<string>, line: string)
    ensures ReadLines(a + [line]) ==
      (var props :- ReadLines(a);
       var e :- ReadLine(line);
       Success(Put(props, e)))
  {
    ReadAllSnoc(a, line);
    if ReadAll(a).Success? && ReadLine(line).Success? {
      var es := ReadAll(a).value + [ReadLine(line).value];
      assert es[..|es| - 1] == ReadAll(a).value;
    }
  }

  /** Once a prefix of the lines fails, reading further lines does not change the error. */
  lemma {:induction false} ReadAllPrefixFailure(a: seq<string>, b: seq<string>)
    requires ReadAll(a).Failure?
    ensures ReadAll(a + b) == ReadAll(a)
  {
    assert (a + b)[0] == a[0];
    if ReadLine(a[0]).Success? {
      assert (a + b)[1..] == a[1..] + b;
      ReadAllPrefixFailure(a[1..], b);
    }
  }

  /** readLines stops at the first failing line: lines after it make no difference. */
  lemma ReadLinesPrefixFailure(a: seq<string>, b: seq<string>)
    requires ReadLines(a).Failure?
    ensures ReadLines(a + b) == ReadLines(a)
  {
    ReadAllPrefixFailure(a, b);
  }

  /**
   * A key is present iff some line defines it, and its value comes from the
   * last line that defines it.
   */
  lemma ReadLinesLastWins(lines: seq<string>, key: string)
    requires ReadLines(lines).Success?
    ensures key in ReadLines(lines).value <==> exists i :: 0 <= i < |lines| && HasKey(lines[i], key)
    ensures key in ReadLines(lines).value ==>
      exists i :: 0 <= i < |lines| && Defines(lines[i], key, ReadLines(lines).value[key]) &&
        forall j :: i < j < |lines| ==> !HasKey(lines[j], key)
  {
    var es := ReadAll(lines).value;
    ReadAllSpec(lines);
    StoreLastWins(es, key);
    forall i | 0 <= i < |lines|
      ensures HasKey(lines[i], key) <==> Names(es, i, key)
      ensures Names(es, i, key) ==> Defines(lines[i], key, es[i].value.value)
    {
      assert ReadLine(lines[i]) == Success(es[i]);
    }
  }

  /** The trimmed form of a `key + ": " + value` line whose value is blank. */
  lemma TrimKeyBlankLine(key: string, value: string)
    requires key != [] && !IsWhite(key[0]) && AllWhite(value)
    ensures Trim(key + ": " + value) == key + ":"
  {
    var head := key + ":";
    var tail := " " + value;
    assert key + ": " + value == head + tail;
    AllWhiteAppend(" ", value);
    TrimEndWhiteSuffix(head, tail);
    TrimEndClean(head);
    TrimStartClean(head);
  }

  /** The trimmed form of a `key + ": " + value` line whose value is not blank. */
  lemma TrimKeyValueLine(key: string, value: string)
    requires key != [] && !IsWhite(key[0]) && !AllWhite(value)
    ensures Trim(key + ": " + value) == key + ": " + TrimEnd(value)
  {
    var head := key + ": ";
    assert key + ": " + value == head + value;
    TrimEndKeepsPrefix(head, value);
    TrimStartClean(head + TrimEnd(value));
  }

  /** What follows the ':' of a trimmed `key + ": " + value` line trims to the trimmed value. */
  lemma TrimAfterColon(value: string)
    ensures Trim(if AllWhite(value) then "" else " " + TrimEnd(value)) == Trim(value)
  {
    if AllWhite(value) {
      TrimSpec(value);
    } else {
      TrimIgnoresPadding(" ", TrimEnd(value));
      TrimEndIdempotent(value);
    }
  }

  /** readLine on a line whose trimmed text has its first ':' at `i > 0`. */
  lemma ReadLineSplitsAt(line: string, i: nat)
    requires var t := Trim(line); 0 < i < |t| && t[i] == ':' && ':' !in t[..i] && t[0] != '#'
    ensures var t := Trim(line); Defines(line, Trim(t[..i]), Trim(t[i + 1..]))
  {
    var t := Trim(line);
    assert line != "";
    assert !StartsWith(t, "#") by { assert t[..1][0] == t[0]; }
    assert !StartsWith(t, ":") by { assert t[..1][0] == t[0] != ':'; }
    assert IndexOfChar(t, ':') == i by {
      forall k | 0 <= k < i ensures t[k] != ':' { assert t[..i][k] == t[k]; }
    }
    if i + 1 == |t| {
      assert t[i + 1..] == "";
    }
  }

  /**
   * A line written as `key + ": " + value` reads back as the key and the
   * trimmed value, whatever the value contains.
   */
  lemma KeyValueRoundTrip(key: string, value: string)
    requires key != [] && IsTrimmed(key) && ':' !in key && key[0] != '#'
    ensures Defines(key + ": " + value, key, Trim(value))
  {
    var rest := if AllWhite(value) then "" else " " + TrimEnd(value);
    var t := key + ":" + rest;
    if AllWhite(value) {
      TrimKeyBlankLine(key, value);
    } else {
      TrimKeyValueLine(key, value);
    }
    assert Trim(key + ": " + value) == t;
    assert t[..|key|] == key && t[|key|] == ':' && t[0] == key[0];
    assert t[|key| + 1..] == rest;
    ReadLineSplitsAt(key + ": " + value, |key|);
    TrimTrimmed(key);
    TrimAfterColon(value);
  }
}
