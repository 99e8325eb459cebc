/**
 * The interposition library (lib/hooks.c). Preloaded into the target, it
 * defines malloc, calloc, realloc and free; each resolves the genuine
 * implementation once through dlsym(RTLD_NEXT, ...), forwards the call,
 * and appends one CSV line to /tmp/heapinfo.txt.
 *
 * The file's static state (the `loaded` flag, the four `m_*_real` pointers)
 * lives in the fields of an `Interposer`; the log file is the sequence of
 * lines appended to it; dlsym is a function fixed for the process; what the
 * genuine allocator returns is a parameter of each hook, and every call
 * forwarded to it is recorded.
 */
module Hooks {
  import opened Wrappers
  import opened Text

  /** 2^64: one past the largest address or size_t value. */
  const Word: nat := 0x1_0000_0000_0000_0000

  /** A 64-bit address; 0 is NULL. */
  type Ptr = x: nat | x < 0x1_0000_0000_0000_0000

  /** A 64-bit size_t. */
  type SizeT = x: nat | x < 0x1_0000_0000_0000_0000

  const NULL: Ptr := 0
  /** LOG_BUF_SZ: the buffer each line is formatted into. */
  const LogBufSize: nat := 256

  // ---------------------------------------------------------------------------
  // Formatting a line
  // ---------------------------------------------------------------------------

  /** glibc's `%p`: `(nil)` for NULL, otherwise `0x` and lower-case hexadecimal. */
  function FormatPointer(p: Ptr): string
  {
    if p == NULL then "(nil)" else "0x" + Hex(p)
  }

  /** `%ld` given a size_t: the same 64 bits read as a signed long. */
  function FormatLong(v: SizeT): string
  {
    if v < 0x8000_0000_0000_0000 then Dec(v) else "-" + Dec(Word - v)
  }

  /** What `snprintf(buf, 256, "%s,%p,%ld\n", name, ptr, size)` formats, before truncation. */
  function SizedLine(name: string, ptr: Ptr, size: SizeT): string
  {
    name + "," + FormatPointer(ptr) + "," + FormatLong(size) + "\n"
  }

  /** What `snprintf(buf, 256, "%s,%p,\n", "free", ptr)` formats, before truncation. */
  function FreeLine(ptr: Ptr): string
  {
    "free," + FormatPointer(ptr) + ",\n"
  }

  /**
   * The lines a hook appends for a formatted text: the text itself when
   * snprintf's count is below the buffer size, nothing when it would be
   * truncated.
   */
  function Emit(line: string): seq<string>
  {
    if |line| < LogBufSize then [line] else []
  }

  // ---------------------------------------------------------------------------
  // The resolver
  // ---------------------------------------------------------------------------

  /** A call forwarded to the genuine allocator, through the pointer `fn`. */
  datatype RealCall =
    | RealMalloc(fn: Ptr, size: SizeT)
    | RealCalloc(fn: Ptr, num: SizeT, size: SizeT)
    | RealRealloc(fn: Ptr, ptr: Ptr, newSize: SizeT)
    | RealFree(fn: Ptr, ptr: Ptr)

  /** The resolver's state: the `loaded` flag and the four real pointers. */
  datatype Table = Table(loaded: bool, malloc: Ptr, calloc: Ptr, realloc: Ptr, free: Ptr)

  /** LOAD_SYM: look the symbol up only while the pointer is still NULL. */
  function LoadSym(sym: Ptr, name: string, dlsym: string -> Ptr): Ptr
  {
    if sym == NULL then dlsym(name) else sym
  }

  /** `_load_real_symbols` on the resolver's state. */
  function Load(t: Table, dlsym: string -> Ptr): Table
  {
    if t.loaded then t
    else Table(true,
               LoadSym(t.malloc, "malloc", dlsym),
               LoadSym(t.calloc, "calloc", dlsym),
               LoadSym(t.realloc, "realloc", dlsym),
               LoadSym(t.free, "free", dlsym))
  }

  /** The table at process start: nothing loaded, every pointer NULL. */
  const Unloaded: Table := Table(false, NULL, NULL, NULL, NULL)

  /** The table once loaded: every pointer is what dlsym gave for its name. */
  function Resolved(dlsym: string -> Ptr): Table
  {
    Table(true, dlsym("malloc"), dlsym("calloc"), dlsym("realloc"), dlsym("free"))
  }

  // ---------------------------------------------------------------------------
  // The hooks
  // ---------------------------------------------------------------------------

  class Interposer {
    /** `static int loaded` of `_load_real_symbols`. */
    var loaded: bool
    /** m_malloc_real, m_calloc_real, m_realloc_real, m_free_real. */
    var mallocReal: Ptr
    var callocReal: Ptr
    var reallocReal: Ptr
    var freeReal: Ptr
    /** The lines this process appended to /tmp/heapinfo.txt, in order. */
    var log: seq<string>
    /** The calls forwarded to the genuine allocator, in order. */
    var calls: seq<RealCall>
    /** `dlsym(RTLD_NEXT, name)` in this process. */
    const dlsym: string -> Ptr
    /** The address of calloc's static `tmpbuf`. */
    const tmpbuf: Ptr

    function CurrentTable(): Table
      reads this
    {
      Table(loaded, mallocReal, callocReal, reallocReal, freeReal)
    }

    /** The resolver is either untouched or fully loaded from dlsym. */
    ghost predicate Valid()
      reads this
    {
      CurrentTable() == Unloaded || CurrentTable() == Resolved(dlsym)
    }

    /** The library as the loader maps it: nothing resolved, nothing logged. */
    constructor (dlsym: string -> Ptr, tmpbuf: Ptr)
      requires tmpbuf != NULL
      ensures Valid() && CurrentTable() == Unloaded
      ensures this.dlsym == dlsym && this.tmpbuf == tmpbuf
      ensures log == [] && calls == []
    {
      this.dlsym := dlsym;
      this.tmpbuf := tmpbuf;
      loaded := false;
      mallocReal, callocReal, reallocReal, freeReal := NULL, NULL, NULL, NULL;
      log, calls := [], [];
    }

    /** `_load_real_symbols()`: the first call resolves, every later one returns at once. */
    method LoadRealSymbols()
      requires Valid()
      modifies this
      ensures Valid() && loaded
      ensures CurrentTable() == Load(old(CurrentTable()), dlsym)
      ensures log == old(log) && calls == old(calls)
    {
      if loaded {
        return;
      }
      loaded := true;
      if mallocReal == NULL {
        mallocReal := dlsym("malloc");
      }
      if callocReal == NULL {
        callocReal := dlsym("calloc");
      }
      if reallocReal == NULL {
        reallocReal := dlsym("realloc");
      }
      if freeReal == NULL {
        freeReal := dlsym("free");
      }
    }

    /** The library constructor `init`: resolve the symbols. */
    method Init()
      requires Valid()
      modifies this
      ensures Valid() && CurrentTable() == Resolved(dlsym)
      ensures log == old(log) && calls == old(calls)
    {
      LoadRealSymbols();
    }

    /** `malloc(size)`; `result` is what the genuine malloc returns. */
    method Malloc(size: SizeT, result: Ptr) returns (r: Ptr)
      requires Valid()
      modifies this
      ensures Valid() && CurrentTable() == Resolved(dlsym)
      ensures calls == old(calls) + [RealMalloc(mallocReal, size)]
      ensures log == old(log) + Emit(SizedLine("malloc", result, size))
      ensures r == result
    {
      LoadRealSymbols();
      calls := calls + [RealMalloc(mallocReal, size)];
      var line := SizedLine("malloc", result, size);
      if |line| >= LogBufSize {
        return result;
      }
      log := log + [line];
      return result;
    }

    /**
     * `calloc(num, size)`; `result` is what the genuine calloc returns. While
     * m_calloc_real is NULL it hands out the scratch buffer and does nothing
     * else, not even resolve the symbols.
     */
    method Calloc(num: SizeT, size: SizeT, result: Ptr) returns (r: Ptr)
      requires Valid()
      modifies this
      ensures Valid() && CurrentTable() == old(CurrentTable())
      ensures old(callocReal) == NULL ==> r == tmpbuf && log == old(log) && calls == old(calls)
      ensures old(callocReal) != NULL ==>
        && calls == old(calls) + [RealCalloc(callocReal, num, size)]
        && log == old(log) + Emit(SizedLine("calloc", result, (size * num) % Word))
        && r == result
    {
      if callocReal == NULL {
        return tmpbuf;
      }
      LoadRealSymbols();
      calls := calls + [RealCalloc(callocReal, num, size)];
      var line := SizedLine("calloc", result, (size * num) % Word);
      if |line| >= LogBufSize {
        return result;
      }
      log := log + [line];
      return result;
    }

    /** `realloc(ptr, new_size)`; it formats its line but never writes it. */
    method Realloc(ptr: Ptr, newSize: SizeT, result: Ptr) returns (r: Ptr)
      requires Valid()
      modifies this
      ensures Valid() && CurrentTable() == Resolved(dlsym)
      ensures calls == old(calls) + [RealRealloc(reallocReal, ptr, newSize)]
      ensures log == old(log)
      ensures r == result
    {
      LoadRealSymbols();
      calls := calls + [RealRealloc(reallocReal, ptr, newSize)];
      var line := SizedLine("realloc", result, newSize);
      if |line| >= LogBufSize {
        return result;
      }
      return result;
    }

    /**
     * `realloc(ptr, new_size)` as the other hooks are written: the line it
     * formats is appended unless truncated.
     */
    method ReallocLogged(ptr: Ptr, newSize: SizeT, result: Ptr) returns (r: Ptr)
      requires Valid()
      modifies this
      ensures Valid() && CurrentTable() == Resolved(dlsym)
      ensures calls == old(calls) + [RealRealloc(reallocReal, ptr, newSize)]
      ensures log == old(log) + Emit(SizedLine("realloc", result, newSize))
      ensures r == result
    {
      LoadRealSymbols();
      calls := calls + [RealRealloc(reallocReal, ptr, newSize)];
      var line := SizedLine("realloc", result, newSize);
      if |line| >= LogBufSize {
        return result;
      }
      log := log + [line];
      return result;
    }

    /** `free(ptr)`: resolve first, then do nothing more for NULL. */
    method Free(ptr: Ptr)
      requires Valid()
      modifies this
      ensures Valid() && CurrentTable() == Resolved(dlsym)
      ensures ptr == NULL ==> calls == old(calls) && log == old(log)
      ensures ptr != NULL ==>
        && calls == old(calls) + [RealFree(freeReal, ptr)]
        && log == old(log) + Emit(FreeLine(ptr))
    {
      LoadRealSymbols();
      if ptr == NULL {
        return;
      }
      calls := calls + [RealFree(freeReal, ptr)];
      var line := FreeLine(ptr);
      if |line| >= LogBufSize {
        return;
      }
      log := log + [line];
    }
  }

  // ---------------------------------------------------------------------------
  // Properties
  // ---------------------------------------------------------------------------

  /** Loading twice is loading once, and a resolved pointer is never replaced. */
  lemma LoadIsOneShot(t: Table, dlsym: string -> Ptr)
    ensures Load(t, dlsym).loaded
    ensures Load(Load(t, dlsym), dlsym) == Load(t, dlsym)
    ensures t.malloc != NULL ==> Load(t, dlsym).malloc == t.malloc
    ensures t.calloc != NULL ==> Load(t, dlsym).calloc == t.calloc
    ensures t.realloc != NULL ==> Load(t, dlsym).realloc == t.realloc
    ensures t.free != NULL ==> Load(t, dlsym).free == t.free
    ensures Load(Unloaded, dlsym) == Resolved(dlsym)
  {
  }

  /** `%p` never takes more than 18 characters. */
  lemma PointerWidth(p: Ptr)
    ensures |FormatPointer(p)| <= 18
  {
    if p != NULL {
      HexLength64(p);
    }
  }

  /** `%ld` never takes more than 20 characters. */
  lemma LongWidth(v: SizeT)
    ensures |FormatLong(v)| <= 20
  {
    if v < 0x8000_0000_0000_0000 {
      DecLength64(v);
    } else {
      DecLength64(Word - v);
    }
  }

  /**
   * Every line the hooks format fits the 256-byte buffer, so the truncation
   * branch is never taken and each logged call appends exactly its line.
   */
  lemma LinesFit(ptr: Ptr, size: SizeT)
    ensures Emit(SizedLine("malloc", ptr, size)) == [SizedLine("malloc", ptr, size)]
    ensures Emit(SizedLine("calloc", ptr, size)) == [SizedLine("calloc", ptr, size)]
    ensures Emit(SizedLine("realloc", ptr, size)) == [SizedLine("realloc", ptr, size)]
    ensures Emit(FreeLine(ptr)) == [FreeLine(ptr)]
  {
    PointerWidth(ptr);
    LongWidth(size);
  }

  /** Python's int(field, 16) reads back a non-NULL `%p`; `(nil)` is rejected. */
  lemma PointerReadsBack(p: Ptr)
    ensures ParseInt(FormatPointer(p), 16) == if p == NULL then None else Some(p as int)
  {
    if p != NULL {
      HexRoundTrip(p);
    }
  }

  /** Python's int(field) reads back `%ld` of a size as its signed 64-bit value. */
  lemma LongReadsBack(v: SizeT)
    ensures ParseInt(FormatLong(v), 10) == Some(if v < 0x8000_0000_0000_0000 then v else v - Word)
  {
    if v < 0x8000_0000_0000_0000 {
      DecRoundTrip(v);
    } else {
      var s := FormatLong(v);
      assert s[1..] == Dec(Word - v);
      DecIsDigits(Word - v);
      DigitIsPlain(Dec(Word - v)[0]);
      DecDigitsRoundTrip(Word - v);
    }
  }
}
