/**
 * `genId`: seven characters, a dash at index 3 and a random character of
 * `ABCDEF1234567890` at each other index. The random source is a parameter:
 * `randoms` holds the six values `Math.random()` returns, in the order the
 * characters are produced.
 */
module GenId {

  const Chars := "ABCDEF1234567890"

  ghost predicate IsRandom(x: real)
  {
    0.0 <= x < 1.0
  }

  /** A character the id pattern `[A-F0-9]` accepts. */
  predicate IsIdChar(c: char)
  {
    'A' <= c <= 'F' || '0' <= c <= '9'
  }

  /** The character set is exactly `A`-`F` and `0`-`9`, each once. */
  lemma CharsAreIdChars()
    ensures |Chars| == 16
    ensures forall k :: 0 <= k < |Chars| ==> IsIdChar(Chars[k])
    ensures forall k, l :: 0 <= k < l < |Chars| ==> Chars[k] != Chars[l]
  {
  }

  /** The position of an id character in `Chars`. */
  function IndexIn(c: char): (k: nat)
    requires IsIdChar(c)
    ensures k < |Chars| && Chars[k] == c
  {
    if 'A' <= c <= 'F' then c as int - 'A' as int
    else if c == '0' then 15
    else c as int - '1' as int + 6
  }

  /** `chars.charAt(Math.floor(random * chars.length))` */
  function RandomChar(random: real): (c: char)
    requires IsRandom(random)
    ensures IsIdChar(c)
  {
    var k := (random * |Chars| as real).Floor;
    CharsAreIdChars();
    Chars[k]
  }

  /** The `Math.random()` value that the character at position `i` is drawn from. */
  function DrawIndex(i: nat): nat
  {
    if i < 3 then i else i - 1
  }

  /** `Array.from({ length: 7 }, (_, i) => i === 3 ? '-' : getRandomChar()).join('')` */
  function GenId(randoms: seq<real>): (r: string)
    requires |randoms| == 6 && forall i :: 0 <= i < 6 ==> IsRandom(randoms[i])
    ensures IdShape(r)
    ensures forall i :: 0 <= i < 7 && i != 3 ==> r[i] == RandomChar(randoms[DrawIndex(i)])
  {
    seq(7, i requires 0 <= i < 7 => if i == 3 then '-' else RandomChar(randoms[DrawIndex(i)]))
  }

  /** The id shape `^[A-F0-9]{3}-[A-F0-9]{3}$`. */
  ghost predicate IdShape(s: string)
  {
    |s| == 7 && s[3] == '-' && forall i :: 0 <= i < 7 && i != 3 ==> IsIdChar(s[i])
  }

  /** A random value that draws `c`. */
  function Draw(c: char): (x: real)
    requires IsIdChar(c)
    ensures IsRandom(x) && RandomChar(x) == c
  {
    var k := IndexIn(c);
    var x := k as real / 16.0;
    assert |Chars| as real == 16.0;
    assert x * 16.0 == k as real;
    x
  }

  /** The six random values that draw the characters of `s` around its dash. */
  function Draws(s: string): (randoms: seq<real>)
    requires IdShape(s)
    ensures |randoms| == 6 && forall j :: 0 <= j < 6 ==> IsRandom(randoms[j])
    ensures forall i :: 0 <= i < 7 && i != 3 ==> RandomChar(randoms[DrawIndex(i)]) == s[i]
  {
    [Draw(s[0]), Draw(s[1]), Draw(s[2]), Draw(s[4]), Draw(s[5]), Draw(s[6])]
  }

  /** Every string of the id shape is the id of some six random values. */
  lemma GenIdReachesEveryShape(s: string)
    requires IdShape(s)
    ensures exists randoms :: |randoms| == 6 && (forall i :: 0 <= i < 6 ==> IsRandom(randoms[i])) && GenId(randoms) == s
  {
    var randoms := Draws(s);
    var r := GenId(randoms);
    assert forall i :: 0 <= i < 7 ==> r[i] == s[i];
    assert r == s;
  }
}
