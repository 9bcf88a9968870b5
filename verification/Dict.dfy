/**
  The dictionary itself: a map filled line by line when it is constructed.
*/
module DictClass {
  import opened DictModel

  class Dict {
    var dict: map<string, string>

    // content: the opened file's.
    constructor (content: string)
      ensures dict == Load(Lines(content))
    {
      dict := map[];
      new;
      LoadDict(content);
    }

    method LoadDict(content: string)
      requires dict == map[]
      modifies this
      ensures dict == Load(Lines(content))
    {
      var lines := Lines(content);
      for i := 0 to |lines|
        invariant dict == Load(lines[..i])
      {
        assert lines[..i + 1][..i] == lines[..i];
        var line := lines[i];
        if line == "" {
          continue;
        }
        var pos := FindSep(line);
        if pos == |line| {
          continue;
        }
        var key := line[..pos];
        if key == "" {
          continue;
        }
        var value := line[pos + |SEP|..];
        if value == "" {
          continue;
        }
        if key !in dict {
          dict := dict[key := value];
        }
      }
      assert lines[..|lines|] == lines;
    }

    method Translate(word: string) returns (translation: string)
      ensures translation == if word != "" && word in dict then dict[word] else "None"
      ensures translation == DictModel.Translate(dict, word)
    {
      if word == "" {
        return "None";
      }
      if word !in dict {
        return "None";
      }
      return dict[word];
    }
  }
}
