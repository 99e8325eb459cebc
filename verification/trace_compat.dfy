/**
 * How the lines the allocation hooks append relate to the lines the trace
 * analysis script reads. The hooks write `name,pointer,size` (three fields,
 * the function name first); the script expects
 * `seconds,microseconds,name,address,size` and converts the first field to
 * an integer, so a hook's line is refused at its first field.
 */
module TraceCompat {
  import opened Wrappers
  import opened Text
  import Hooks
  import Vizzyviz

  /**
   * The first field of a line that starts with a comma-free word and
   * ends in a newline is that word.
   */
  lemma FirstField(word: string, rest: string)
    requires |word| > 0 && ',' !in word && !IsSpace(word[0])
    ensures Vizzyviz.Fields(word + "," + rest + "\n")[0] == word
  {
    var line := word + "," + rest + "\n";
    assert line[0] == word[0];
    LStripKeeps(line);
    var k := |word| + 1;
    assert line[k - 1] == ',';
    RStripKeepsPrefix(line, k);
    var stripped := Strip(line);
    assert line[..k] == word + [','];
    assert stripped == word + [','] + stripped[k..];
    SplitWord(word, ',', stripped[k..]);
  }

  /** A word that does not end in a decimal digit is not a decimal integer. */
  lemma NotDecimal(word: string)
    requires |word| > 0 && !IsSpace(word[0]) && !IsSpace(word[|word| - 1])
    requires !('0' <= word[|word| - 1] <= '9')
    ensures Vizzyviz.PyInt(word, 10).None?
  {
    LStripKeeps(word);
    RStripKeepsAll(word);
    assert Strip(word) == word;
    if word[0] == '-' || word[0] == '+' {
      var digits := word[1..];
      if |digits| > 0 {
        assert digits[|digits| - 1] == word[|word| - 1];
      }
    }
  }

  /** A line a hook appends for malloc, calloc or realloc is refused at its first field. */
  lemma SizedLineRefused(name: string, ptr: Hooks.Ptr, size: Hooks.SizeT)
    requires name in {"malloc", "calloc", "realloc"}
    ensures Vizzyviz.ParseLine(Hooks.SizedLine(name, ptr, size)) == Err(Vizzyviz.BadNumber(0))
  {
    var rest := Hooks.FormatPointer(ptr) + "," + Hooks.FormatLong(size);
    assert Hooks.SizedLine(name, ptr, size) == name + "," + rest + "\n";
    FirstField(name, rest);
    NotDecimal(name);
  }

  /** A line the free hook appends is refused at its first field. */
  lemma FreeLineRefused(ptr: Hooks.Ptr)
    ensures Vizzyviz.ParseLine(Hooks.FreeLine(ptr)) == Err(Vizzyviz.BadNumber(0))
  {
    var rest := Hooks.FormatPointer(ptr) + ",";
    assert Hooks.FreeLine(ptr) == "free" + "," + rest + "\n";
    FirstField("free", rest);
    NotDecimal("free");
  }
}
