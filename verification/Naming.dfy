/** Queue names (internal/naming/queue.go) and the dedupe keys built from them. */
module Naming {

  const DLQ_SUFFIX := ".dlq"

  predicate HasSuffix(s: string, suffix: string) {
    |suffix| <= |s| && s[|s| - |suffix|..] == suffix
  }

  predicate HasPrefix(s: string, prefix: string) {
    |prefix| <= |s| && s[..|prefix|] == prefix
  }

  predicate NameChar(c: char) {
    'a' <= c <= 'z' || 'A' <= c <= 'Z' || '0' <= c <= '9' || c == '.' || c == '-' || c == '_'
  }

  /** The user-visible queue names. Every accepted character is one byte wide, so counting
      characters and counting bytes agree on every name this predicate lets through. */
  predicate ValidQueueName(name: string) {
    && name != ""
    && |name| <= 128
    && !HasSuffix(name, DLQ_SUFFIX)
    && forall i :: 0 <= i < |name| ==> NameChar(name[i])
  }

  predicate IsDlq(queue: string) {
    HasSuffix(queue, DLQ_SUFFIX)
  }

  /** The shadow queue that holds the dead letters of `queue`. */
  function Dlq(queue: string): string {
    queue + DLQ_SUFFIX
  }

  /** The queue whose dead letters go to the shadow queue `dlq`. */
  function Source(dlq: string): string
    requires IsDlq(dlq)
  {
    dlq[..|dlq| - |DLQ_SUFFIX|]
  }

  /** Shadow names are exactly the names ending in ".dlq": `Dlq` and `Source` are inverse
      bijections, no shadow name is user-visible, and no name is its own shadow. */
  lemma ShadowNames(q: string)
    ensures IsDlq(Dlq(q)) && Source(Dlq(q)) == q
    ensures IsDlq(q) ==> Dlq(Source(q)) == q
    ensures IsDlq(q) ==> !ValidQueueName(q)
    ensures q != Dlq(q)
  {
    assert |Dlq(q)| == |q| + 4;
    assert Dlq(q)[|q|..] == DLQ_SUFFIX;
    if IsDlq(q) {
      assert q == q[..|q| - 4] + q[|q| - 4..];
    }
  }

  lemma DlqInjective(p: string, q: string)
    requires Dlq(p) == Dlq(q)
    ensures p == q
  {
    ShadowNames(p);
    ShadowNames(q);
  }

  lemma DlqDiffers(p: string, q: string)
    requires p != q
    ensures Dlq(p) != Dlq(q)
  {
    if Dlq(p) == Dlq(q) {
      DlqInjective(p, q);
    }
  }

  /** The bytes of a name: digits, capitals and small letters by their codes, and hyphen, point and
      underscore. */
  predicate NameCode(code: int) {
    48 <= code <= 57 || 65 <= code <= 90 || 97 <= code <= 122 || code in {45, 46, 95}
  }

  lemma CodeIs(c: char)
    ensures NameCode(c as int) <==> NameChar(c)
  {
    assert 'a' as int == 97 && 'z' as int == 122 && 'A' as int == 65 && 'Z' as int == 90;
    assert '0' as int == 48 && '9' as int == 57 && '-' as int == 45 && '.' as int == 46 && '_' as int == 95;
  }

  /** The user-visible names are exactly the words of 1 to 128 such bytes that are not the shadow name of
      anything. */
  lemma ValidNamesAre(name: string)
    ensures ValidQueueName(name) <==>
              1 <= |name| <= 128 && (forall c :: c in name ==> NameCode(c as int)) && forall p :: name != p + ".dlq"
  {
    forall c: char ensures NameCode(c as int) <==> NameChar(c) {
      CodeIs(c);
    }
    hide NameCode, NameChar;
    assert (forall c :: c in name ==> NameChar(c)) <==> (forall i :: 0 <= i < |name| ==> NameChar(name[i]));
    if HasSuffix(name, ".dlq") {
      assert name == name[..|name| - 4] + ".dlq";
    }
    if p :| name == p + ".dlq" {
      assert name[|name| - 4..] == ".dlq";
    }
  }

  /** The in-process dedupe key of one enqueue. */
  function DedupeKey(queue: string, key: string): string {
    queue + ":" + key
  }

  /** A valid name contains no colon, so the prefix test used when a queue is purged picks out
      that queue's keys and no other queue's, and distinct (queue, key) pairs never collide. */
  lemma PurgePrefixIsExact(p: string, key: string, q: string)
    requires ValidQueueName(p) && ValidQueueName(q)
    ensures HasPrefix(DedupeKey(p, key), q + ":") <==> p == q
  {
    var k, prefix := DedupeKey(p, key), q + ":";
    assert k[|p|] == ':' && prefix[|q|] == ':';
    assert forall i :: 0 <= i < |p| ==> k[i] == p[i];
    assert forall i :: 0 <= i < |q| ==> prefix[i] == q[i];
    if p == q {
      assert k[..|prefix|] == prefix;
    }
    if HasPrefix(k, prefix) {
      assert forall i :: 0 <= i < |prefix| ==> k[i] == k[..|prefix|][i] == prefix[i];
      assert |p| == |q|;
      assert p == k[..|p|] == prefix[..|q|] == q;
    }
  }

  lemma DedupeKeyInjective(p: string, j: string, q: string, k: string)
    requires ValidQueueName(p) && ValidQueueName(q)
    requires DedupeKey(p, j) == DedupeKey(q, k)
    ensures p == q && j == k
  {
    assert DedupeKey(q, k)[..|q| + 1] == q + ":";
    PurgePrefixIsExact(p, j, q);
    assert j == DedupeKey(p, j)[|p| + 1..] == DedupeKey(q, k)[|q| + 1..] == k;
  }
}
