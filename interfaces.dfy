/**
  The drop-data types of CuddleLibs/Interfaces and their `ToString` formatters.

  An `OutcropDropData` is a resource and a chance; a `CreatureDropData` adds the amount to
  spawn and the unique flag. Both are `DropTable.Entry` values here. The formatters take
  the reflected field list as input: one `Field` per public field, in declaration order.
 */
module Interfaces {
  import opened Tech
  import opened DropTable

  /** The fields only a creature drop has: `dropAmount` (a `ushort`) and `unique`. */
  datatype CreatureExtra = CreatureExtra(dropAmount: UShort, unique: bool)

  type OutcropDropData = Entry<()>
  type CreatureDropData = Entry<CreatureExtra>

  /** The initialiser of `OutcropDropData.chance`. */
  const DefaultOutcropChance: real := 0.5

  /** `new OutcropDropData() { resourceTechType = resource }`: the required resource and the
      field initialiser's chance. */
  function NewOutcropDropData(resource: TechType): (d: OutcropDropData)
    ensures d.resource == resource && d.chance == DefaultOutcropChance
  {
    Entry(resource, DefaultOutcropChance, ())
  }

  /** `new CreatureDropData() { TechType = resource }`: `chance` has no initialiser (0.0),
      `unique` starts false and `dropAmount` starts at 1. */
  function NewCreatureDropData(resource: TechType): (d: CreatureDropData)
    ensures d.resource == resource && d.chance == 0.0
    ensures !d.extra.unique && d.extra.dropAmount == 1
  {
    Entry(resource, 0.0, CreatureExtra(1, false))
  }

  // ---------------------------------------------------------------------------
  // ToString

  /** One reflected field: its type name, its name and its value, already rendered. */
  datatype Field = Field(typeName: string, name: string, value: string)

  /** The line terminator. `AppendLine` writes `Environment.NewLine`, which is `"\r\n"` on
      Windows and `"\n"` elsewhere; this model fixes it at `"\n"`. */
  const NewLine: string := "\n"

  /** The line for field `i`: `{prepend}\t{type} {name}: {value}`, then a comma unless it is
      the last field. */
  function FieldLine(prepend: string, fields: seq<Field>, i: nat): string
    requires i < |fields|
  {
    prepend + "\t" + fields[i].typeName + " " + fields[i].name + ": " + fields[i].value
      + (if i != |fields| - 1 then "," else "")
  }

  /** The lines `ToString(prepend)` emits: an opening brace line, one line per field in field
      order, a closing brace line. */
  function Lines(prepend: string, fields: seq<Field>): seq<string>
  {
    [prepend + "{"] + seq(|fields|, i requires 0 <= i < |fields| => FieldLine(prepend, fields, i)) + [prepend + "}"]
  }

  /** The text of a list of lines, each followed by the terminator. */
  function Text(lines: seq<string>): string
  {
    if lines == [] then "" else lines[0] + NewLine + Text(lines[1..])
  }

  /** `ToString(string prepend)`: the `StringBuilder` loop. */
  method ToStringPrefixed(prepend: string, fields: seq<Field>) returns (str: string)
    ensures str == Text(Lines(prepend, fields))
  {
    ghost var lines := Lines(prepend, fields);
    str := prepend + "{" + NewLine;
    TextSnoc([], prepend + "{");
    assert lines[..1] == [prepend + "{"];
    for i := 0 to |fields|
      invariant str == Text(lines[..i + 1])
    {
      TextSnoc(lines[..i + 1], FieldLine(prepend, fields, i));
      str := str + FieldLine(prepend, fields, i) + NewLine;
      assert lines[..i + 2] == lines[..i + 1] + [FieldLine(prepend, fields, i)];
    }
    TextSnoc(lines[..|fields| + 1], prepend + "}");
    str := str + prepend + "}" + NewLine;
    assert lines == lines[..|fields| + 1] + [prepend + "}"];
  }

  /** `ToString()`: the same output with nothing prepended. */
  method ToString(fields: seq<Field>) returns (str: string)
    ensures str == Text(Lines("", fields))
  {
    str := ToStringPrefixed("", fields);
  }

  /** Appending a line appends its text. */
  lemma {:induction false} TextSnoc(lines: seq<string>, line: string)
    ensures Text(lines + [line]) == Text(lines) + line + NewLine
    decreases |lines|
  {
    if lines != [] {
      assert (lines + [line])[1..] == lines[1..] + [line];
      TextSnoc(lines[1..], line);
    }
  }

  /** The position of the first line terminator in `s`, `|s|` when there is none. */
  function FirstNewline(s: string): (k: nat)
    ensures k <= |s|
    ensures k < |s| ==> s[k] == '\n'
    ensures forall i | 0 <= i < k :: s[i] != '\n'
    decreases |s|
  {
    if s == "" then 0
    else if s[0] == '\n' then 0
    else 1 + FirstNewline(s[1..])
  }

  /** Reading a text back as lines: cut at every terminator (a last piece with no terminator
      is a line too). */
  function SplitLines(s: string): seq<string>
    decreases |s|
  {
    if s == "" then []
    else
      var k := FirstNewline(s);
      if k == |s| then [s] else [s[..k]] + SplitLines(s[k + 1..])
  }

  /** Reading the output back gives the lines that were written, as long as no line holds a
      terminator of its own. */
  lemma {:induction false} SplitText(lines: seq<string>)
    requires forall i | 0 <= i < |lines| :: '\n' !in lines[i]
    ensures SplitLines(Text(lines)) == lines
    decreases |lines|
  {
    if lines != [] {
      var s := Text(lines);
      assert s == lines[0] + NewLine + Text(lines[1..]);
      assert s[|lines[0]|] == '\n';
      assert forall i | 0 <= i < |lines[0]| :: s[i] == lines[0][i];
      assert FirstNewline(s) == |lines[0]|;
      assert s[..|lines[0]|] == lines[0];
      assert s[|lines[0]| + 1..] == Text(lines[1..]);
      SplitText(lines[1..]);
    }
  }

  /** The shape of the output: a `{` line first, a `}` line last, one line per field in
      between and in field order, every line starting with `prepend`, and a comma closing
      every field line but the last. */
  lemma LinesShape(prepend: string, fields: seq<Field>)
    ensures var ls := Lines(prepend, fields);
      && |ls| == |fields| + 2
      && ls[0] == prepend + "{" && ls[|ls| - 1] == prepend + "}"
      && (forall i | 0 <= i < |ls| :: prepend <= ls[i])
      && (forall i | 0 <= i < |fields| ::
            var body := prepend + "\t" + fields[i].typeName + " " + fields[i].name + ": " + fields[i].value;
            ls[i + 1] == if i < |fields| - 1 then body + "," else body)
  {
    var ls := Lines(prepend, fields);
    forall i | 0 <= i < |ls| ensures prepend <= ls[i] {
      if 0 < i < |ls| - 1 {
        assert ls[i] == FieldLine(prepend, fields, i - 1);
      }
    }
  }
}
