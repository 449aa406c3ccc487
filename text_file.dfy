/** The line-scanning helper that both importers drive: a fixed sequence of lines,
    a read position and the attribute mapping built so far. */
module TextFiles {

  /** Java's `String.startsWith`. */
  predicate StartsWith(line: string, prefix: string) {
    |prefix| <= |line| && line[..|prefix|] == prefix
  }

  /** The rest of `line` once the `prefix` it begins with is removed. */
  function StripPrefix(line: string, prefix: string): (r: string)
    requires StartsWith(line, prefix)
    ensures prefix + r == line
  {
    assert line == line[..|prefix|] + line[|prefix|..];
    line[|prefix|..]
  }

  function Min(a: nat, b: nat): nat {
    if a <= b then a else b
  }

  /** Where a scan that begins at `start` stops: the first line at or after `start`
      on which `isEnd` holds, or the number of lines when there is none. A start
      past the end is clamped to the end. */
  function StopIndex(lines: seq<string>, start: nat, isEnd: string -> bool): (r: nat)
    ensures Min(start, |lines|) <= r <= |lines|
    ensures forall i :: start <= i < r ==> !isEnd(lines[i])
    ensures r < |lines| ==> isEnd(lines[r])
    decreases |lines| - start
  {
    if start >= |lines| then |lines|
    else if isEnd(lines[start]) then start
    else StopIndex(lines, start + 1, isEnd)
  }

  /** Declarative description of a scan's stop index: `k` lies between the
      (clamped) start and the end, no line before it matches, and it is either a
      matching line or the end. */
  ghost predicate IsStop(lines: seq<string>, start: nat, k: nat, isEnd: string -> bool) {
    && Min(start, |lines|) <= k <= |lines|
    && (forall i :: start <= i < k ==> !isEnd(lines[i]))
    && (k < |lines| ==> isEnd(lines[k]))
  }

  /** The declarative description has exactly one solution, the one StopIndex computes. */
  lemma StopIndexUnique(lines: seq<string>, start: nat, isEnd: string -> bool, k: nat)
    ensures IsStop(lines, start, k, isEnd) <==> k == StopIndex(lines, start, isEnd)
  {
  }

  /** A scan whose end test never holds runs to the last line. */
  lemma NeverEndingScanReachesEnd(lines: seq<string>, start: nat, isEnd: string -> bool)
    requires forall line :: !isEnd(line)
    ensures StopIndex(lines, start, isEnd) == |lines|
  {
  }

  class TextFile {
    const lines: seq<string>
    /** How the lines of a scanned block are joined into one attribute value. */
    const join: seq<string> -> string
    var position: nat
    var attributes: map<string, string>

    constructor (lines: seq<string>, join: seq<string> -> string)
      ensures this.lines == lines && this.join == join
      ensures position == 0 && attributes == map[]
    {
      this.lines := lines;
      this.join := join;
      position := 0;
      attributes := map[];
    }

    /** Stores the line at the read position, less `prefix`, under `key` and moves
        past it; reports failure, changing nothing, when that line is missing or
        does not begin with `prefix`. */
    method AddLineSuffix(prefix: string, key: string) returns (found: bool)
      modifies this
      ensures found <==> old(position) < |lines| && StartsWith(lines[old(position)], prefix)
      ensures found ==> position == old(position) + 1
      ensures found ==> attributes == old(attributes)[key := StripPrefix(lines[old(position)], prefix)]
      ensures !found ==> position == old(position) && attributes == old(attributes)
    {
      found := position < |lines| && StartsWith(lines[position], prefix);
      if found {
        attributes := attributes[key := StripPrefix(lines[position], prefix)];
        position := position + 1;
      }
    }

    /** Moves to `start` and accumulates lines until one satisfies `isEnd` or the
        lines run out; stores the joined block under `key` and returns the index
        where the scan stopped (the matching line is not part of the block). */
    method AddLines(start: nat, isEnd: string -> bool, key: string) returns (stopIndex: nat)
      modifies this
      ensures stopIndex == StopIndex(lines, start, isEnd) && position == stopIndex
      ensures attributes == old(attributes)[key := join(lines[Min(start, |lines|)..stopIndex])]
    {
      position := Min(start, |lines|);
      var accumulated: seq<string> := [];
      while position < |lines| && !isEnd(lines[position])
        invariant Min(start, |lines|) <= position <= |lines|
        invariant accumulated == lines[Min(start, |lines|)..position]
        invariant StopIndex(lines, position, isEnd) == StopIndex(lines, start, isEnd)
        invariant attributes == old(attributes)
        decreases |lines| - position
      {
        accumulated := accumulated + [lines[position]];
        position := position + 1;
      }
      attributes := attributes[key := join(accumulated)];
      stopIndex := position;
    }
  }
}
