/** ltf_secrets_parse_file as it runs: the line loop, the flag and key of the value being read, and
    the growing buffer (sbuf_append) that collects it. */
module SecretsFile {
  import opened Options
  import opened Pairs
  import opened Text
  import opened Secrets

  /** The value buffer: no memory at first, then a terminated string with room for its terminator. */
  class ValueBuffer {
    var data: array<char>
    var len: nat

    ghost predicate Valid()
      reads this, data
    {
      if data.Length == 0 then len == 0 else len < data.Length && data[len] == '\0'
    }

    function Contents(): string
      requires Valid()
      reads this, data
    {
      data[..len]
    }

    constructor ()
      ensures Valid() && Contents() == "" && fresh(data)
    {
      data := new char[0];
      len := 0;
    }

    /** Room for `needed` characters: 64 at first, then doubled as often as it takes. */
    method Grow(needed: nat)
      requires Valid() && data.Length < needed
      modifies this`data
      ensures fresh(data) && needed <= data.Length && len <= data.Length
      ensures data[..len] == old(data[..len])
    {
      var capacity := if data.Length > 0 then data.Length else 64;
      while capacity < needed
        invariant capacity >= data.Length && capacity > 0
      {
        capacity := capacity * 2;
      }
      var bigger := new char[capacity];
      forall i | 0 <= i < len {
        bigger[i] := data[i];
      }
      data := bigger;
    }

    /** The contents are always what has been appended so far, shorter than the capacity. */
    method Append(src: string)
      requires Valid()
      modifies this, data
      ensures Valid() && Contents() == old(Contents()) + src && len < data.Length
      ensures data == old(data) || fresh(data)
    {
      if len + |src| + 1 > data.Length {
        Grow(len + |src| + 1);
      }
      forall i | 0 <= i < |src| {
        data[len + i] := src[i];
      }
      len := len + |src|;
      data[len] := '\0';
    }

    /** Takes back one newline at the end. */
    method DropNewline()
      requires Valid()
      modifies this`len, data
      ensures Valid() && Contents() == WithoutNewline(old(Contents()))
    {
      if len > 0 && data[len - 1] == '\n' {
        len := len - 1;
        data[len] := '\0';
      }
    }
  }

  class Parser {
    var out: seq<Pair<string>>
    var inMultiline: bool
    var key: string
    var buffer: ValueBuffer

    ghost predicate Valid()
      reads this, buffer, buffer.data
    {
      buffer.Valid()
    }

    function Value(): Reading
      requires Valid()
      reads this, buffer, buffer.data
    {
      Reading(out, if inMultiline then Some(Pair(key, buffer.Contents())) else None)
    }

    constructor ()
      ensures Valid() && Value() == Reading([], None)
      ensures fresh(buffer) && fresh(buffer.data)
    {
      out, inMultiline, key := [], false, "";
      buffer := new ValueBuffer();
    }

    /** Hands the collected value over to the list. */
    method FinishMultiline()
      requires Valid() && inMultiline
      modifies this
      ensures Valid() && Value() == Finished(old(Value()), old(buffer.Contents()))
      ensures fresh(buffer) && fresh(buffer.data)
    {
      var value := buffer.data[..buffer.len];
      out := out + [Pair(key, value)];
      key := "";
      buffer := new ValueBuffer();
      inMultiline := false;
    }

    method ReadInside(line: string)
      requires Valid() && inMultiline
      modifies this, buffer, buffer.data
      ensures Valid() && Value() == InsideLine(old(Value()), line)
      ensures buffer == old(buffer) || fresh(buffer)
      ensures buffer.data == old(buffer.data) || fresh(buffer.data)
    {
      if StartsWith(SkipSpace(line), QUOTES) {
        buffer.DropNewline();
        FinishMultiline();
        return;
      }
      var close := Find(line, QUOTES);
      if close.Some? {
        if close.value > 0 {
          buffer.Append(line[..close.value]);
        } else {
          assert buffer.Contents() + line[..0] == buffer.Contents();
        }
        FinishMultiline();
      } else {
        ghost var before := buffer.Contents();
        if |line| > 0 {
          buffer.Append(line);
        }
        assert buffer.Contents() == before + line;
        buffer.Append("\n");
      }
    }

    method ReadOutside(line: string)
      requires Valid() && !inMultiline
      modifies this
      ensures Valid() && Value() == OutsideLine(old(Value()), line)
      ensures buffer == old(buffer) || fresh(buffer)
      ensures buffer.data == old(buffer.data) || fresh(buffer.data)
    {
      hide Trim, Span, Find;
      var s := Trim(line);
      if |s| == 0 {
        return;
      }
      var eq := Span(s, '=');
      if eq == |s| {
        return;
      }
      var name, value := Trim(s[..eq]), Trim(s[eq + 1..]);
      if |name| == 0 {
        return;
      }
      if StartsWith(value, QUOTES) {
        var rest := value[3..];
        var close := Find(rest, QUOTES);
        if close.Some? {
          out := out + [Pair(name, rest[..close.value])];
        } else {
          key := name;
          buffer := new ValueBuffer();
          if |rest| > 0 {
            buffer.Append(rest);
            assert buffer.Contents() == "" + rest == rest;
            buffer.Append("\n");
          }
          inMultiline := true;
        }
      } else {
        out := out + [Pair(name, value)];
      }
    }

    /** The loop over the lines of the file. */
    method ReadFile(text: string)
      requires Valid() && Value() == Reading([], None)
      modifies this, buffer, buffer.data
      ensures out == Parse(text)
    {
      var pos := 0;
      assert text[0..] == text;
      while pos < |text|
        invariant pos <= |text| && Valid()
        invariant buffer == old(buffer) || fresh(buffer)
        invariant buffer.data == old(buffer.data) || fresh(buffer.data)
        invariant AtEnd(ReadLines(Value(), Lines(text[pos..]))) == Parse(text)
      {
        var raw, next := GetLine(text, pos);
        var line := StripEol(raw);
        if inMultiline {
          ReadInside(line);
        } else {
          ReadOutside(line);
        }
        pos := next;
      }
      assert Lines(text[pos..]) == [];
      if inMultiline {
        FinishMultiline();
      }
    }
  }

  /** getline, without the newline it ends with. */
  method GetLine(text: string, pos: nat) returns (line: string, next: nat)
    requires pos < |text|
    ensures pos < next <= |text|
    ensures Lines(text[pos..]) == [line] + Lines(text[next..])
  {
    LinesHead(text[pos..]);
    hide Lines;
    var n := Span(text[pos..], '\n');
    line := text[pos..][..n];
    if pos + n < |text| {
      next := pos + n + 1;
      assert text[pos..][n + 1..] == text[next..];
    } else {
      next := |text|;
      assert text[next..] == "";
    }
  }

  method ParseFile(text: string) returns (out: seq<Pair<string>>)
    ensures out == Parse(text)
  {
    var parser := new Parser();
    parser.ReadFile(text);
    out := parser.out;
  }
}
