/**
 * The text reader and writers the serializer works through: a TextReader
 * over the lines ReadLine hands out, a TextWriter collecting written lines,
 * and the TabinatedWriter that indents what it passes on by its current
 * depth. Written lines keep their depth and text apart (OutputLine), and
 * Grammar.Render turns them into the text a reader sees.
 */
module TextIO {
  import opened Wrappers
  import opened Grammar

  /** A TextReader: ReadLine hands out the lines in order, then null (None). */
  class LineReader {
    const lines: seq<string>
    /** How many lines ReadLine has handed out. */
    var position: nat

    predicate Valid()
      reads this
    {
      position <= |lines|
    }

    constructor (lines: seq<string>)
      ensures this.lines == lines && position == 0 && Valid()
    {
      this.lines := lines;
      position := 0;
    }

    /** TextReader.ReadLine: the next line, or None once every line has been read. */
    method ReadLine() returns (line: Option<string>)
      requires Valid()
      modifies this
      ensures Valid()
      ensures old(position) < |lines| ==> line == Some(lines[old(position)]) && position == old(position) + 1
      ensures old(position) == |lines| ==> line == None && position == old(position)
    {
      if position < |lines| {
        line := Some(lines[position]);
        position := position + 1;
      } else {
        line := None;
      }
    }

    /** TextReader.ReadToEnd: every line not yet read; the result is empty exactly when the text is. */
    method ReadToEnd() returns (rest: seq<string>)
      requires Valid()
      modifies this
      ensures Valid() && rest == old(lines[position..]) && position == |lines|
    {
      rest := lines[position..];
      position := |lines|;
    }
  }

  /** A TextWriter: the lines written so far, in order. */
  class Output {
    var lines: seq<OutputLine>

    constructor ()
      ensures lines == []
    {
      lines := [];
    }

    /** TextWriter.WriteLine(text): one line, not indented. */
    method WriteLine(text: string)
      modifies this
      ensures lines == old(lines) + [OutputLine(0, text)]
    {
      lines := lines + [OutputLine(0, text)];
    }

    /** The line a TabinatedWriter passes on: the text after depth tabs. */
    method WriteIndentedLine(depth: nat, text: string)
      modifies this
      ensures lines == old(lines) + [OutputLine(depth, text)]
    {
      lines := lines + [OutputLine(depth, text)];
    }
  }

  /** A TabinatedWriter over a TextWriter: every line goes out at the current depth. */
  class TabinatedWriter {
    const output: Output
    var tabination: nat

    constructor (output: Output)
      ensures this.output == output && tabination == 0
    {
      this.output := output;
      tabination := 0;
    }

    method WriteLine(text: string)
      modifies output
      ensures output.lines == old(output.lines) + [OutputLine(tabination, text)]
    {
      output.WriteIndentedLine(tabination, text);
    }

    method IncreaseTabination()
      modifies this
      ensures tabination == old(tabination) + 1
    {
      tabination := tabination + 1;
    }

    method DecreaseTabination()
      requires tabination > 0
      modifies this
      ensures tabination == old(tabination) - 1
    {
      tabination := tabination - 1;
    }
  }
}
