/**
 * Properties that connect the server's replies with what the page makes of
 * them: the result text of every class leads the page to that class's
 * subtype, the server's title-cased class names are the page's labels, and a
 * successful server reply becomes a page outcome.
 */
module Agreement {
  import opened Wrappers
  import opened Text
  import opened Presenter
  import Client
  import Server

  /** The subtype the label names, none for `notumor`. */
  function SubtypeOfLabel(cls: string): Option<Subtype> {
    if cls == "pituitary" then Some(Pituitary)
    else if cls == "glioma" then Some(Glioma)
    else if cls == "meningioma" then Some(Meningioma)
    else None
  }

  /**
   * The server's text for a tumour class, as the page lower-cases it: the
   * lower-cased prefix followed by the class name itself.
   */
  lemma TumorTextOf(cls: string)
    requires cls != "notumor"
    requires IsLowerWord(cls)
    ensures Server.ClassifyResult(cls).1 == "tumor"
    ensures Lower(Server.ClassifyResult(cls).0) == Lower("Tumor Detected: ") + cls
  {
    Server.TitleOfLowerWord(cls);
    LowerAppend("Tumor Detected: ", Server.TitleCase(cls));
    LowerOfUpper(cls[0]);
  }

  /** The letters p and l appear in neither case in the tumour prefix. */
  lemma PrefixLacks(c: char)
    requires c == 'p' || c == 'l'
    ensures c !in "Tumor Detected: " && UpperChar(c) !in "Tumor Detected: "
  {
  }

  /** A tumour class's own name occurs in the text the page lower-cases. */
  lemma TumorTextNames(cls: string)
    requires cls != "notumor"
    requires IsLowerWord(cls)
    ensures Contains(Lower(Server.ClassifyResult(cls).0), cls)
  {
    TumorTextOf(cls);
    assert OccursAt(Lower(Server.ClassifyResult(cls).0), cls, 16);
  }

  /**
   * A subtype name holding a lower-case letter that neither the tumour prefix
   * (in either case) nor the class name holds does not occur in its text.
   */
  lemma TumorTextLacks(cls: string, name: string, c: char)
    requires cls != "notumor"
    requires IsLowerWord(cls)
    requires IsAsciiLower(c) && c in name && c !in cls
    requires c !in "Tumor Detected: " && UpperChar(c) !in "Tumor Detected: "
    ensures !Contains(Lower(Server.ClassifyResult(cls).0), name)
  {
    TumorTextOf(cls);
    LowerAvoids("Tumor Detected: ", c);
    NotContainsByChar(Lower(Server.ClassifyResult(cls).0), name, c);
  }

  lemma SubtypeOfPituitary(cls: string)
    requires cls == "pituitary"
    ensures var r := Server.ClassifyResult(cls); TumorSubtype(r.1, r.0) == Some(Pituitary)
  {
    assert IsLowerWord(cls);
    TumorTextNames(cls);
    TumorTextOf(cls);
    FirstNamedIsShown("tumor", Server.ClassifyResult(cls).0, Pituitary);
  }

  lemma SubtypeOfGlioma(cls: string)
    requires cls == "glioma"
    ensures var r := Server.ClassifyResult(cls); TumorSubtype(r.1, r.0) == Some(Glioma)
  {
    assert IsLowerWord(cls);
    assert 'p' !in cls;
    PrefixLacks('p');
    TumorTextNames(cls);
    TumorTextOf(cls);
    TumorTextLacks(cls, "pituitary", 'p');
    FirstNamedIsShown("tumor", Server.ClassifyResult(cls).0, Glioma);
  }

  lemma SubtypeOfMeningioma(cls: string)
    requires cls == "meningioma"
    ensures var r := Server.ClassifyResult(cls); TumorSubtype(r.1, r.0) == Some(Meningioma)
  {
    assert IsLowerWord(cls);
    assert 'p' !in cls && 'l' !in cls;
    PrefixLacks('p');
    PrefixLacks('l');
    TumorTextNames(cls);
    TumorTextOf(cls);
    TumorTextLacks(cls, "pituitary", 'p');
    TumorTextLacks(cls, "glioma", 'l');
    FirstNamedIsShown("tumor", Server.ClassifyResult(cls).0, Meningioma);
  }

  /**
   * For each of the four classes the page reads the server's result text
   * back as that class: the subtype is the class's own, and none for `notumor`.
   */
  lemma {:induction false} SubtypeOfServerResult(i: nat)
    requires i < |Server.ClassLabels|
    ensures var r := Server.ClassifyResult(Server.ClassLabels[i]);
            TumorSubtype(r.1, r.0) == SubtypeOfLabel(Server.ClassLabels[i])
  {
    if i == 0 {
      SubtypeOfPituitary(Server.ClassLabels[i]);
    } else if i == 1 {
      SubtypeOfGlioma(Server.ClassLabels[i]);
    } else if i == 3 {
      SubtypeOfMeningioma(Server.ClassLabels[i]);
    }
  }

  /** The server's title-cased class name is the label the page shows for that class. */
  lemma {:induction false} TitleIsDisplayName(i: nat)
    requires i < |Server.ClassLabels| && Server.ClassLabels[i] != "notumor"
    ensures Server.TitleCase(Server.ClassLabels[i]) == DisplayName(Server.ClassLabels[i])
  {
    Server.TitleOfLowerWord(Server.ClassLabels[i]);
  }

  /** Only a `notumor` prediction gets the success badge on the page. */
  lemma BadgeOfPrediction(predictedClass: string)
    ensures BadgeStyle(Server.ClassifyResult(predictedClass).1) == SuccessStyle
            <==> predictedClass == "notumor"
  {
  }

  /** A server pair as the page's `Object.entries` yields it. */
  function EntryOf(p: (string, int)): Entry {
    Entry(p.0, p.1)
  }

  /**
   * How the page's `fetch` reads a reply of the upload route. `jsonify`
   * writes `class_probabilities` with its keys sorted, and `Object.entries`
   * yields them in that written order.
   */
  function ReplyOutcome(resp: Server.Response): (o: Client.UploadOutcome)
    ensures resp.ErrorReply? ==> o == Client.ServerRejected(resp.error)
    ensures resp.ResultReply? ==>
              && o.Success? && o.data.filepath == resp.filepath
              && o.data.result == resp.result && o.data.resultType == resp.resultType
              && o.data.confidence == resp.confidence
              && |o.data.classProbabilities| == |resp.classProbabilities|
    ensures resp.ResultReply? ==>
              forall k :: 0 <= k < |resp.classProbabilities| ==>
                o.data.classProbabilities[k] == EntryOf(Server.JsonOrder(resp.classProbabilities)[k])
    ensures resp.ResultReply? ==>
              forall i, j :: 0 <= i < j < |o.data.classProbabilities| ==>
                LexLeq(o.data.classProbabilities[i].key, o.data.classProbabilities[j].key)
    ensures resp.ResultReply? ==>
              forall p :: p in resp.classProbabilities ==> EntryOf(p) in o.data.classProbabilities
  {
    match resp
    case ErrorReply(error) => Client.ServerRejected(error)
    case ResultReply(result, resultType, _, confidence, probabilities, filepath) =>
      var sorted := Server.JsonOrder(probabilities);
      var entries := seq(|sorted|, k requires 0 <= k < |sorted| => EntryOf(sorted[k]));
      assert forall p :: p in probabilities ==> EntryOf(p) in entries by {
        forall p | p in probabilities
          ensures EntryOf(p) in entries
        {
          assert p in multiset(sorted);
          var k :| 0 <= k < |sorted| && sorted[k] == p;
          assert entries[k] == EntryOf(p);
        }
      }
      Client.Success(Client.ResultData(filepath, result, resultType, confidence, entries))
  }

  lemma JsonOrderOfTwo(n: (string, int), m: (string, int))
    requires !LexLeq(n.0, m.0)
    ensures Server.JsonOrder([n, m]) == [m, n]
  {
    assert [n, m][1..] == [m];
    Server.InsertByKeyPast(n, [m]);
  }

  lemma JsonOrderOfThree(g: (string, int), n: (string, int), m: (string, int))
    requires LexLeq(g.0, m.0) && !LexLeq(n.0, m.0)
    ensures Server.JsonOrder([g, n, m]) == [g, m, n]
  {
    assert [g, n, m][1..] == [n, m];
    JsonOrderOfTwo(n, m);
  }

  /** A pair whose key exceeds all three keys of an ascending sequence goes last. */
  lemma InsertLastOfThree(p: (string, int), g: (string, int), m: (string, int), n: (string, int))
    requires Server.KeysAscending([g, m, n])
    requires !LexLeq(p.0, g.0) && !LexLeq(p.0, m.0) && !LexLeq(p.0, n.0)
    ensures Server.InsertByKey(p, [g, m, n]) == [g, m, n, p]
  {
    assert [g, m, n][1..] == [m, n] && [m, n][1..] == [n] && [n][1..] == [];
    Server.InsertByKeyPast(p, [n]);
    Server.InsertByKeyPast(p, [m, n]);
    Server.InsertByKeyPast(p, [g, m, n]);
  }

  /** `jsonify`'s order of four pairs whose keys compare as the four class labels do. */
  lemma JsonOrderOfFour(p: (string, int), g: (string, int), n: (string, int), m: (string, int))
    requires LexLeq(g.0, m.0) && !LexLeq(n.0, m.0)
    requires !LexLeq(p.0, g.0) && !LexLeq(p.0, m.0) && !LexLeq(p.0, n.0)
    ensures Server.JsonOrder([p, g, n, m]) == [g, m, n, p]
  {
    assert [p, g, n, m][1..] == [g, n, m];
    var three := Server.JsonOrder([g, n, m]);
    JsonOrderOfThree(g, n, m);
    assert three == [g, m, n];
    assert Server.JsonOrder([p, g, n, m]) == Server.InsertByKey(p, three);
    InsertLastOfThree(p, g, m, n);
  }

  /**
   * The four class scores, written by `predict_tumor` in label order, reach
   * the page in key order: glioma, meningioma, notumor, pituitary.
   */
  lemma PageReceivesKeyOrder(a: int, b: int, c: int, d: int)
    ensures Server.JsonOrder([("pituitary", a), ("glioma", b), ("notumor", c), ("meningioma", d)])
            == [("glioma", b), ("meningioma", d), ("notumor", c), ("pituitary", a)]
  {
    LexByFirst("notumor", "meningioma");
    LexByFirst("glioma", "meningioma");
    LexByFirst("pituitary", "glioma");
    LexByFirst("pituitary", "meningioma");
    LexByFirst("pituitary", "notumor");
    JsonOrderOfFour(("pituitary", a), ("glioma", b), ("notumor", c), ("meningioma", d));
  }
}
