/** Reading "key: value" lines, as the manager does with the output of `dominfo` and `net-info`. */
module Fields {
  import opened Wrappers
  import opened Text

  // str::split_once.
  function SplitOnce(line: string, sep: char): Option<(string, string)> {
    if line == [] then None
    else if line[0] == sep then Some(([], line[1..]))
    else match SplitOnce(line[1..], sep)
      case None => None
      case Some(pair) => Some(([line[0]] + pair.0, pair.1))
  }

  predicate SaysYes(line: string, field: string) {
    var parts := SplitOnce(line, ':');
    parts.Some? && Trim(parts.value.0) == field && Trim(parts.value.1) == "yes"
  }

  // The last empty line and a trailing carriage return, which line splitting drops, cannot matter here.
  predicate FieldIsYes(output: string, field: string) {
    exists line :: line in Split(output, '\n') && SaysYes(line, field)
  }

  lemma {:induction false} SplitOnceAt(key: string, value: string, sep: char)
    requires sep !in key
    ensures SplitOnce(key + [sep] + value, sep) == Some((key, value))
  {
    if key == [] {
      assert ([sep] + value)[1..] == value;
    } else {
      SplitOnceAt(key[1..], value, sep);
      assert (key + [sep] + value)[1..] == key[1..] + [sep] + value;
      assert [key[0]] + key[1..] == key;
    }
  }

  datatype Field = Field(key: string, value: string)

  function Printed(fields: seq<Field>): seq<string> {
    seq(|fields|, i requires 0 <= i < |fields| => fields[i].key + ":" + fields[i].value)
  }

  // Whatever else is printed and however it is padded: the answer is yes exactly when a field of that
  // very name says so.
  lemma FieldsReadBack(fields: seq<Field>, field: string)
    requires fields != []
    requires forall f :: f in fields ==> ':' !in f.key && '\n' !in f.key && '\n' !in f.value
    ensures FieldIsYes(Join(Printed(fields), '\n'), field) <==>
            exists f :: f in fields && FieldSaysYes(f, field)
  {
    var lines := Printed(fields);
    LinesAreClean(fields);
    SplitJoin(lines, '\n');
    forall i | 0 <= i < |fields|
      ensures SaysYes(lines[i], field) <==> FieldSaysYes(fields[i], field)
    {
      LineOfField(fields[i], field);
    }
    AnyLine(fields, lines, field);
  }

  predicate FieldSaysYes(f: Field, field: string) { Trim(f.key) == field && Trim(f.value) == "yes" }

  lemma LinesAreClean(fields: seq<Field>)
    requires forall f :: f in fields ==> '\n' !in f.key && '\n' !in f.value
    ensures forall line :: line in Printed(fields) ==> '\n' !in line
  {
    forall line | line in Printed(fields)
      ensures '\n' !in line
    {
      var i :| 0 <= i < |fields| && Printed(fields)[i] == line;
      assert fields[i] in fields;
    }
  }

  lemma LineOfField(f: Field, field: string)
    requires ':' !in f.key
    ensures SaysYes(f.key + ":" + f.value, field) <==> FieldSaysYes(f, field)
  {
    SplitOnceAt(f.key, f.value, ':');
    assert [':'] == ":";
  }

  lemma AnyLine(fields: seq<Field>, lines: seq<string>, field: string)
    requires |lines| == |fields|
    requires forall i :: 0 <= i < |fields| ==> (SaysYes(lines[i], field) <==> FieldSaysYes(fields[i], field))
    ensures (exists line :: line in lines && SaysYes(line, field)) <==> exists f :: f in fields && FieldSaysYes(f, field)
  {
    if line :| line in lines && SaysYes(line, field) {
      var i :| 0 <= i < |lines| && lines[i] == line;
      assert fields[i] in fields;
    }
    if f :| f in fields && FieldSaysYes(f, field) {
      var i :| 0 <= i < |fields| && fields[i] == f;
      assert lines[i] in lines;
    }
  }
}
