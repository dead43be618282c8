/**
 * The FileFollower of the monitor test: a cursor `pos` into a text file that
 * another process keeps appending to, and the generator that yields the
 * complete lines after the cursor.
 */
module Follower {
  import opened Options
  import opened Lines

  /** The file `bluechictl monitor` writes its output to; it only ever grows. */
  class TextFile {
    var content: string

    constructor ()
      ensures content == []
    {
      content := [];
    }

    /** The producer writes `text` at the end of the file. */
    method Append(text: string)
      modifies this
      ensures content == old(content) + text
    {
      content := content + text;
    }
  }

  /** A text-mode file object opened on a TextFile, with its own read offset. */
  class FileDesc {
    const file: TextFile
    var offset: nat
    var closed: bool

    /** `open(name, mode='r')`: reading starts at the beginning of the file. */
    constructor Open(file: TextFile)
      ensures this.file == file && offset == 0 && !closed
    {
      this.file := file;
      offset := 0;
      closed := false;
    }

    /** `seek(p)`: move the read offset to character `p`. */
    method Seek(p: nat)
      modifies this
      ensures offset == p && closed == old(closed)
    {
      offset := p;
    }

    /** `read()`: everything from the offset to the end of the file; the offset moves to the end. */
    method Read() returns (s: string)
      requires !closed
      modifies this
      ensures old(offset) <= |file.content| ==> s == file.content[old(offset)..] && offset == |file.content|
      ensures old(offset) > |file.content| ==> s == [] && offset == old(offset)
      ensures closed == old(closed)
    {
      if offset <= |file.content| {
        s := file.content[offset..];
        offset := |file.content|;
      } else {
        s := [];
      }
    }

    /** `close()`: the file object can no longer be read. */
    method Close()
      modifies this
      ensures closed && offset == old(offset)
    {
      closed := true;
    }
  }

  class FileFollower {
    var pos: nat
    const fileName: string
    var fileDesc: FileDesc?

    /** `__init__`: the cursor starts at character 0 and no file is open yet. */
    constructor (fileName: string)
      ensures pos == 0 && this.fileName == fileName && fileDesc == null
    {
      pos := 0;
      this.fileName := fileName;
      fileDesc := null;
    }

    /** Inside the `with` block: the file is open and the cursor lies within it. */
    ghost predicate Valid()
      reads this, fileDesc, if fileDesc != null then {fileDesc.file} else {}
    {
      fileDesc != null && !fileDesc.closed && pos <= |fileDesc.file.content|
    }

    /** The current text of the followed file. */
    ghost function Content(): string
      requires fileDesc != null
      reads this, fileDesc, fileDesc.file
    {
      fileDesc.file.content
    }

    /**
     * `__enter__`: open the file. The file system lookup of `fileName` is
     * outside the model; the caller passes the file that the name denotes.
     */
    method Enter(file: TextFile)
      modifies this
      ensures fileDesc != null && fresh(fileDesc) && fileDesc.file == file
      ensures fileDesc.offset == 0 && !fileDesc.closed
      ensures pos == old(pos)
    {
      fileDesc := new FileDesc.Open(file);
    }

    /** `__exit__`: close the file if one was opened; the cursor is kept. */
    method Exit()
      modifies fileDesc
      ensures fileDesc != null ==> fileDesc.closed
    {
      if fileDesc != null {
        fileDesc.Close();
      }
    }

    /** `seek()`: put the file object's offset at the cursor. */
    method Seek()
      requires fileDesc != null
      modifies fileDesc
      ensures fileDesc.offset == pos && fileDesc.closed == old(fileDesc.closed)
    {
      fileDesc.Seek(pos);
    }

    /** `new_lines()`: whether the text after the cursor holds a newline. */
    method NewLines() returns (b: bool)
      requires Valid()
      modifies fileDesc
      ensures Valid()
      ensures fileDesc == old(fileDesc) && Content() == old(Content())
      ensures b <==> HasLine(Content(), pos)
    {
      Seek();
      var rest := fileDesc.Read();
      b := '\n' in rest;
      NewlineInRest(Content(), pos);
    }

    /**
     * A statement about `__iter__` rather than a call the test makes: what
     * `list(self)` would give on content that does not change while it
     * runs. It runs one generator to its end and collects what it yields:
     * exactly the complete lines after the cursor, in order. The cursor ends
     * just past the last newline, so the text consumed is those lines
     * rejoined, and the torn tail after it, which holds no newline, is left
     * unread.
     */
    method ReadAll() returns (lines: seq<string>)
      requires Valid()
      modifies this, fileDesc
      ensures Valid() && fileDesc == old(fileDesc) && Content() == old(Content())
      ensures lines == LinesFrom(Content(), old(pos))
      ensures pos == ConsumedEnd(Content(), old(pos))
      ensures Content()[old(pos)..pos] == Join(lines)
      ensures '\n' !in Content()[pos..]
    {
      var gen := new LineGenerator(this);
      lines := [];
      var line := gen.Next();
      while line.Some?
        invariant gen.Valid() && gen.follower == this && gen.start == old(pos) && gen.text == old(Content())
        invariant fileDesc == old(fileDesc)
        invariant line.Some? ==> gen.yielded == lines + [line.value] && !gen.done
        invariant line.None? ==> gen.yielded == lines && gen.done
        decreases gen.Remaining()
      {
        lines := lines + [line.value];
        line := gen.Next();
      }
      ConsumedSpan(Content(), old(pos));
      NewlineInRest(Content(), pos);
    }
  }

  /**
   * The generator object that `iter(follower)` returns. After yielding a
   * line it is suspended before `self.pos += len(line) + 1`: that advance
   * runs only when the consumer asks for the next line, so a consumer that
   * breaks out of its `for` leaves the cursor at the start of the last line
   * it was given.
   */
  class LineGenerator {
    const follower: FileFollower
    /** The line yielded last, whose cursor advance has not run yet. */
    var pending: Option<string>
    var done: bool
    /** Where the cursor stood when the generator was created. */
    ghost const start: nat
    /** What the generator has yielded so far. */
    ghost var yielded: seq<string>
    /** The text of the file, which does not change while the generator runs. */
    ghost const text: string

    /** Where the cursor will be once the pending advance has run. */
    ghost function Cursor(): nat
      reads this, follower
    {
      follower.pos + if pending.Some? then |pending.value| + 1 else 0
    }

    /**
     * The yielded lines and the complete lines after the cursor together
     * make up the complete lines after `start`, and reading on from the
     * cursor stops where reading from `start` would.
     */
    ghost predicate Valid()
      reads this, follower, follower.fileDesc
      reads if follower.fileDesc != null then {follower.fileDesc.file} else {}
    {
      && follower.Valid()
      && follower.Content() == text
      && start <= follower.pos
      && (done ==> pending.None? && Cursor() <= |text| && !HasLine(text, Cursor()))
      && ReaderAt(text, start, Cursor(), yielded)
    }

    ghost function Remaining(): nat
      requires Valid()
      reads this, follower, follower.fileDesc, follower.fileDesc.file
    {
      2 * (|text| - Cursor()) + if done then 0 else 1
    }

    /** `follower.__iter__()`: a generator that has not started yet. */
    constructor (follower: FileFollower)
      requires follower.Valid()
      ensures this.follower == follower && start == follower.pos && text == follower.Content()
      ensures pending == None && !done && yielded == []
      ensures Valid()
    {
      this.follower := follower;
      pending := None;
      done := false;
      start := follower.pos;
      text := follower.Content();
      yielded := [];
      ReaderStart(follower.Content(), follower.pos);
    }

    /**
     * Resume a suspended generator: run the cursor advance that follows the
     * last `yield`, if there was one.
     */
    method Resume()
      requires Valid() && !done
      modifies this, follower
      ensures Valid() && !done && pending.None? && follower.fileDesc == old(follower.fileDesc)
      ensures follower.pos == old(Cursor()) && yielded == old(yielded)
    {
      if pending.Some? {
        follower.pos := follower.pos + |pending.value| + 1;
        pending := None;
      }
    }

    /**
     * `next(gen)`: finish the previous step's cursor advance, then yield the
     * text from the cursor to the next newline if the rest of the file holds
     * one; otherwise the generator is exhausted (None stands for
     * StopIteration).
     */
    method Next() returns (line: Option<string>)
      requires Valid()
      modifies this, follower, follower.fileDesc
      ensures Valid() && follower.fileDesc == old(follower.fileDesc)
      ensures line.Some? <==> !old(done) && HasLine(text, old(Cursor()))
      ensures line.Some? ==> && follower.pos == old(Cursor())
                             && line.value == LineAt(text, old(Cursor()))
                             && Cursor() == NextNewline(text, old(Cursor())) + 1
                             && yielded == old(yielded) + [line.value]
                             && !done
      ensures line.None? ==> done && yielded == old(yielded) && follower.pos == Cursor() == old(Cursor())
      ensures !old(done) ==> Remaining() < old(Remaining())
    {
      if done {
        return None;
      }
      ghost var cursor := Cursor();
      Resume();
      var more := follower.NewLines();
      if more {
        follower.Seek();
        var rest := follower.fileDesc.Read();
        assert rest == text[cursor..];
        var l := FirstLine(rest);
        FirstLineOfRest(text, cursor);
        ReadStep(text, start, cursor, yielded);
        pending := Some(l);
        yielded := yielded + [l];
        line := Some(l);
      } else {
        done := true;
        line := None;
      }
    }
  }
}
