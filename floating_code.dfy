/** The falling code snippets (src/components/FloatingCode.tsx): a list of at most eight lines
    of code, each falling at its own speed; every 100 ms the list advances, drops the lines that
    have left the view, and sometimes gains one new line at the top. Everything here is a
    function on sequences, as the component rebuilds the list on each tick. */
module FloatingCode {
  import opened Numeric

  const Snippets: seq<string> := [
    "from keras.models import Sequential",
    "from keras.layers import Dense, Conv2D, Flatten, LSTM",
    "model.add(Dense(128, activation='relu'))",
    "model.compile(optimizer='sgd', loss='mse')",
    "from sklearn.model_selection import train_test_split",
    "X_train, X_test, y_train, y_test = train_test_split(X, y, test_size=0.2)",
    "from sklearn.preprocessing import StandardScaler",
    "scaler = StandardScaler().fit(X_train)",
    "y_pred = model.predict(X_test)",
    "from sklearn.metrics import accuracy_score, confusion_matrix",
    "loss, accuracy = model.evaluate(X_test, y_test)",
    "import torch",
    "import torch.nn as nn",
    "import torch.optim as optim",
    "class NeuralNet(nn.Module):",
    "optimizer = optim.Adam(model.parameters(), lr=0.001)",
    "criterion = nn.CrossEntropyLoss()",
    "for epoch in range(epochs):",
    "outputs = model(inputs)",
    "loss = criterion(outputs, labels)",
    "from transformers import AutoModel, AutoTokenizer",
    "tokenizer = AutoTokenizer.from_pretrained('bert-base-uncased')",
    "inputs = tokenizer(text, return_tensors='pt')",
    "model = AutoModel.from_pretrained('bert-base-uncased')",
    "predicted_class = torch.argmax(outputs, dim=1)",
    "model.save('trained_model.h5')",
    "loaded_model = tf.keras.models.load_model('trained_model.h5')",
    "import numpy as np",
    "batch_x, batch_y = next(train_loader)",
    "for i, (inputs, labels) in enumerate(train_loader):"
  ]

  /** The most lines the list holds, and the number created on mount. */
  const MaxLines: nat := 8
  /** A line has left the view once its `y` (a percentage of the height) reaches this. */
  const Bottom: real := 110.0
  /** Where every line starts. */
  const Top: real := -10.0
  /** The slowest speed a new line can get, in percent per tick. */
  const MinSpeed: real := 0.05
  /** Ticks after which no line that was in a well-formed list is still there:
      `(Bottom - Top) / MinSpeed`. */
  const Lifetime: nat := 2400

  /** How many snippets there are to choose from. */
  const SnippetCount: nat := 30

  /** A line of code on screen. The line shows `Snippets[snippet]`; keeping the index rather
      than the text itself keeps the snippet table out of every proof about motion. */
  datatype CodeLine = CodeLine(id: real, snippet: nat, x: real, y: real, speed: real, opacity: real)

  /** The text a line shows. */
  function Text(l: CodeLine): (t: string)
    requires l.snippet < SnippetCount
    ensures t in Snippets
  {
    assert |Snippets| == SnippetCount;
    Snippets[l.snippet]
  }

  /** `Math.floor(r * codeSnippets.length)`: the snippet a draw selects. */
  function SnippetIndex(r: real): (k: nat)
    requires 0.0 <= r < 1.0
    ensures k < SnippetCount
  {
    (r * SnippetCount as real).Floor
  }

  /** What every line ever created satisfies: it has not risen above its start, its speed and
      opacity are within the ranges it was created with, and it shows one of the snippets. */
  predicate Good(l: CodeLine)
  {
    && Top <= l.y
    && MinSpeed <= l.speed < 0.15
    && 0.2 <= l.opacity < 0.5
    && 0.0 <= l.x < 100.0
    && l.snippet < SnippetCount
  }

  /** `createCodeLine`, reading the draws `rand(base)` .. `rand(base + 4)` in the order the
      object literal evaluates them: id, snippet, x, speed, opacity. */
  function CreateCodeLine(rand: nat -> real, base: nat): (l: CodeLine)
    requires IsUnitStream(rand)
    ensures Good(l) && l.y == Top
    ensures l.id == rand(base)
    ensures l.snippet == SnippetIndex(rand(base + 1))
  {
    CodeLine(rand(base), SnippetIndex(rand(base + 1)), rand(base + 2) * 100.0, Top,
             0.05 + rand(base + 3) * 0.1, 0.2 + rand(base + 4) * 0.3)
  }

  /** `Array.from({ length: 8 }, createCodeLine)`: eight lines at the top, line `i` from the
      draws `5i` .. `5i + 4`. */
  function Initial(rand: nat -> real): (ls: seq<CodeLine>)
    requires IsUnitStream(rand)
    ensures |ls| == MaxLines
    ensures forall i :: 0 <= i < |ls| ==> ls[i] == CreateCodeLine(rand, 5 * i)
    ensures forall l <- ls :: Good(l) && l.y == Top
  {
    seq(MaxLines, i requires 0 <= i => CreateCodeLine(rand, 5 * i))
  }

  /** `{ ...line, y: line.y + line.speed }`. */
  function Fall(l: CodeLine): (r: CodeLine)
    ensures r.y == l.y + l.speed
    ensures r.id == l.id && r.snippet == l.snippet && r.x == l.x && r.speed == l.speed && r.opacity == l.opacity
  {
    l.(y := l.y + l.speed)
  }

  /** The `map` followed by `filter(line => line.y < 110)`. */
  function Survive(prev: seq<CodeLine>): (r: seq<CodeLine>)
    ensures |r| <= |prev|
    ensures forall l :: l in r <==> exists m :: m in prev && l == Fall(m) && Fall(m).y < Bottom
  {
    if prev == [] then []
    else
      var l := Fall(prev[0]);
      var rest := Survive(prev[1..]);
      assert forall m :: m in prev <==> m == prev[0] || m in prev[1..];
      (if l.y < Bottom then [l] else []) + rest
  }

  /** The filter keeps order: the survivors of a concatenation are the survivors of each part,
      in the same order. */
  lemma {:induction false} SurviveAppend(a: seq<CodeLine>, b: seq<CodeLine>)
    ensures Survive(a + b) == Survive(a) + Survive(b)
  {
    if a == [] {
      assert a + b == b;
    } else {
      assert (a + b)[1..] == a[1..] + b;
      SurviveAppend(a[1..], b);
    }
  }

  /** One interval tick. The survivors keep their order at the front; one new line (from the
      draws after `rand(base)`) is appended exactly when fewer than eight survive and the draw
      `rand(base)` exceeds 0.8. */
  function Tick(prev: seq<CodeLine>, rand: nat -> real, base: nat): (r: seq<CodeLine>)
    requires IsUnitStream(rand)
    ensures Survive(prev) <= r
    ensures |r| == |Survive(prev)| || |r| == |Survive(prev)| + 1
    ensures |r| > |Survive(prev)| <==> |Survive(prev)| < MaxLines && rand(base) > 0.8
    ensures |r| > |Survive(prev)| ==> r[|r| - 1] == CreateCodeLine(rand, base + 1)
    ensures |prev| <= MaxLines ==> |r| <= MaxLines
  {
    var updated := Survive(prev);
    if |updated| < MaxLines && rand(base) > 0.8 then updated + [CreateCodeLine(rand, base + 1)]
    else updated
  }

  /** A tick of a well-formed list leaves it well formed: lines only fall, and a new line is
      well formed. */
  lemma TickKeepsGood(prev: seq<CodeLine>, rand: nat -> real, base: nat)
    requires IsUnitStream(rand)
    requires forall l <- prev :: Good(l)
    ensures forall l <- Tick(prev, rand, base) :: Good(l)
  {
    var r := Tick(prev, rand, base);
    var updated := Survive(prev);
    forall l | l in r
      ensures Good(l)
    {
      if l in updated {
        var m :| m in prev && l == Fall(m) && Fall(m).y < Bottom;
      } else {
        assert l == r[|r| - 1];
      }
    }
  }

  /** What one tick does to a list made of a kept part followed by the rest: the kept part's
      survivors stay in front, and every line after them is a fallen line of the rest or the
      new line. */
  lemma TickSplit(kept: seq<CodeLine>, t: seq<CodeLine>, rand: nat -> real, base: nat)
    requires IsUnitStream(rand)
    requires kept <= t
    ensures Survive(kept) <= Tick(t, rand, base)
    ensures forall l <- Tick(t, rand, base)[|Survive(kept)|..] ::
              (exists m :: m in t[|kept|..] && l == Fall(m)) || l == CreateCodeLine(rand, base + 1)
  {
    var s := t[|kept|..];
    assert t == kept + s;
    SurviveAppend(kept, s);
    var r := Tick(t, rand, base);
    var news := r[|Survive(kept)|..];
    assert r == Survive(kept) + news;
    forall l | l in news
      ensures (exists m :: m in s && l == Fall(m)) || l == CreateCodeLine(rand, base + 1)
    {
      if l !in Survive(s) {
        assert news == Survive(s) + [CreateCodeLine(rand, base + 1)];
      }
    }
  }

  /** `n` ticks; tick `k` is given its own block of six draws starting at `base + 6k` (one for
      the append test, five for the new line). */
  function Ticks(prev: seq<CodeLine>, rand: nat -> real, base: nat, n: nat): seq<CodeLine>
    requires IsUnitStream(rand)
  {
    if n == 0 then prev else Tick(Ticks(prev, rand, base, n - 1), rand, base + 6 * (n - 1))
  }

  /** The lines of `prev` that are still there after `n` ticks, each advanced `n` times. */
  function Falls(prev: seq<CodeLine>, n: nat): seq<CodeLine>
  {
    if n == 0 then prev else Survive(Falls(prev, n - 1))
  }

  /** A line advanced `m` times. */
  function FallN(l: CodeLine, m: nat): CodeLine
  {
    if m == 0 then l else Fall(FallN(l, m - 1))
  }

  /** The line created by tick `k` as it stands after tick `n - 1`, that is, advanced by the
      `n - 1 - k` later ticks. */
  function Aged(rand: nat -> real, base: nat, k: nat, n: nat): CodeLine
    requires IsUnitStream(rand) && k < n
  {
    FallN(CreateCodeLine(rand, base + 6 * k + 1), n - 1 - k)
  }

  /** After `n` ticks the list is the surviving old lines, in their old order, followed only by
      lines that the ticks themselves created. */
  lemma {:induction false} TicksSplit(prev: seq<CodeLine>, rand: nat -> real, base: nat, n: nat)
    requires IsUnitStream(rand)
    ensures Falls(prev, n) <= Ticks(prev, rand, base, n)
    ensures forall l <- Ticks(prev, rand, base, n)[|Falls(prev, n)|..] ::
              exists k :: 0 <= k < n && l == Aged(rand, base, k, n)
  {
    if n > 0 {
      TicksSplit(prev, rand, base, n - 1);
      var t := Ticks(prev, rand, base, n - 1);
      var kept := Falls(prev, n - 1);
      TickSplit(kept, t, rand, base + 6 * (n - 1));
      var r := Ticks(prev, rand, base, n);
      assert r == Tick(t, rand, base + 6 * (n - 1));
      forall l | l in r[|Falls(prev, n)|..]
        ensures exists k :: 0 <= k < n && l == Aged(rand, base, k, n)
      {
        if exists m :: m in t[|kept|..] && l == Fall(m) {
          var m :| m in t[|kept|..] && l == Fall(m);
          var k :| 0 <= k < n - 1 && m == Aged(rand, base, k, n - 1);
          AgedStep(rand, base, k, n);
        } else {
          AgedStep(rand, base, n - 1, n);
        }
      }
    }
  }

  /** A line one more tick on: the line created by tick `k` falls once more, and the line
      created by the last tick has not fallen yet. */
  lemma AgedStep(rand: nat -> real, base: nat, k: nat, n: nat)
    requires IsUnitStream(rand) && k < n
    ensures k < n - 1 ==> Aged(rand, base, k, n) == Fall(Aged(rand, base, k, n - 1))
    ensures k == n - 1 ==> Aged(rand, base, k, n) == CreateCodeLine(rand, base + 6 * (n - 1) + 1)
  {
  }

  /** Every line still there after `k` ticks of a well-formed list has fallen at least
      `0.05 * k` and, once a tick has run, is above the bottom. */
  lemma {:induction false} FallsBound(prev: seq<CodeLine>, k: nat)
    requires forall l <- prev :: Good(l)
    ensures forall l <- Falls(prev, k) :: Good(l) && Top + MinSpeed * k as real <= l.y
    ensures k > 0 ==> forall l <- Falls(prev, k) :: l.y < Bottom
  {
    if k > 0 {
      FallsBound(prev, k - 1);
      forall l | l in Falls(prev, k)
        ensures Good(l) && Top + MinSpeed * k as real <= l.y && l.y < Bottom
      {
        var m :| m in Falls(prev, k - 1) && l == Fall(m) && Fall(m).y < Bottom;
      }
    }
  }

  /** Nothing survives a tick that takes every line to the bottom or past it. */
  lemma {:induction false} SurviveNone(s: seq<CodeLine>)
    requires forall m <- s :: Bottom <= Fall(m).y
    ensures Survive(s) == []
  {
    if s != [] {
      assert s[0] in s;
      SurviveNone(s[1..]);
    }
  }

  /** Since every speed is positive, no line of a well-formed list survives 2400 ticks: after
      that many ticks every line was created by one of them. */
  lemma LinesLeave(prev: seq<CodeLine>, rand: nat -> real, base: nat)
    requires IsUnitStream(rand)
    requires forall l <- prev :: Good(l)
    ensures Falls(prev, Lifetime) == []
    ensures forall l <- Ticks(prev, rand, base, Lifetime) ::
              exists k :: 0 <= k < Lifetime && l == Aged(rand, base, k, Lifetime)
  {
    FallsBound(prev, Lifetime - 1);
    SurviveNone(Falls(prev, Lifetime - 1));
    TicksSplit(prev, rand, base, Lifetime);
    assert Ticks(prev, rand, base, Lifetime)[0..] == Ticks(prev, rand, base, Lifetime);
  }

  /** From the mounted list on, the list never holds more than eight lines and every line
      stays well formed. */
  lemma {:induction false} TicksKeepInvariants(prev: seq<CodeLine>, rand: nat -> real, base: nat, n: nat)
    requires IsUnitStream(rand)
    requires |prev| <= MaxLines && forall l <- prev :: Good(l)
    ensures |Ticks(prev, rand, base, n)| <= MaxLines
    ensures forall l <- Ticks(prev, rand, base, n) :: Good(l)
  {
    if n > 0 {
      TicksKeepInvariants(prev, rand, base, n - 1);
      TickKeepsGood(Ticks(prev, rand, base, n - 1), rand, base + 6 * (n - 1));
    }
  }
}
