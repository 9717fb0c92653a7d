/** The exam-question record the indexing flow accepts, and the prose
    description it builds for each question before embedding it. */
module Questions {
  import opened Wrappers
  import opened Text

  /** One question as the input schema describes it. The record's `class`
      field is `classNumber` here, because `class` is a Dafny keyword. */
  datatype Question = Question(
    question: string,
    subject: string,
    classNumber: int,
    year: int,
    topic: string,
    mark: int,
    difficultyLevel: string,
    board: string,
    isMcq: bool,
    options: Option<seq<string>>,
    containsImages: bool,
    imageDescription: Option<string>,
    isEitherOr: bool,
    otherQuestion: Option<string>,
    isRepeated: bool)

  const McqTopic := "Multiple Choice Question with options: "
  const McqLead := "It is a " + McqTopic
  const DescriptiveSentence := "It is a descriptive question. "
  const ImageLead := "It includes an image described as: \""
  const RepeatedNote := "This question has appeared in previous exams."

  /** `q.isMcq && q.options`: any options array is truthy, even an empty one. */
  predicate IsMcqWithOptions(q: Question)
  {
    q.isMcq && q.options.Some?
  }

  /** `q.containsImages && q.imageDescription`: an empty description is falsy. */
  predicate ShowsImage(q: Question)
  {
    q.containsImages && q.imageDescription.Some? && q.imageDescription.value != ""
  }

  /** `Question: "…"` and a line break. */
  function Opening(q: Question): string
  {
    "Question: \"" + q.question + "\"\n"
  }

  /** The difficulty, subject, class, board and year sentence. */
  function Profile(q: Question): string
  {
    "This is a " + q.difficultyLevel + " level " + q.subject + " question for Class "
    + IntToString(q.classNumber) + " (" + q.board + " Board), from the year "
    + IntToString(q.year) + ". "
  }

  /** The topic and mark sentence. */
  function Coverage(q: Question): string
  {
    "It covers the topic \"" + q.topic + "\" and is worth " + IntToString(q.mark) + " mark(s). "
  }

  /** The three sentences every description starts with. */
  function Heading(q: Question): string
  {
    Opening(q) + Profile(q) + Coverage(q)
  }

  function KindSentence(q: Question): string
  {
    if IsMcqWithOptions(q) then McqLead + Join(q.options.value, ", ") + ". "
    else DescriptiveSentence
  }

  function ImageSentence(q: Question): string
  {
    if ShowsImage(q) then ImageLead + q.imageDescription.value + "\". " else ""
  }

  function RepeatSentence(q: Question): string
  {
    if q.isRepeated then RepeatedNote else ""
  }

  /** The text that is embedded and stored as the row's content. */
  function Description(q: Question): string
  {
    Heading(q) + KindSentence(q) + ImageSentence(q) + RepeatSentence(q)
  }

  /** The template as the indexing loop runs it: one sentence appended at
      a time to `description`. */
  method BuildDescription(q: Question) returns (description: string)
    ensures description == Description(q)
  {
    description := Opening(q);
    description := description + Profile(q);
    description := description + Coverage(q);
    if q.isMcq && q.options.Some? {
      description := description + (McqLead + Join(q.options.value, ", ") + ". ");
    } else {
      description := description + DescriptiveSentence;
    }
    ghost var kind := description;
    if q.containsImages && q.imageDescription.Some? && q.imageDescription.value != "" {
      description := description + (ImageLead + q.imageDescription.value + "\". ");
    }
    ghost var image := description;
    if q.isRepeated {
      description := description + RepeatedNote;
    }
    assert kind == Heading(q) + KindSentence(q);
    assert image == Heading(q) + KindSentence(q) + ImageSentence(q);
  }

  /** The description opens with the quoted question, then the
      difficulty/subject/class/board/year sentence, then the topic/mark
      sentence. */
  lemma DescriptionOpening(q: Question)
    ensures StartsWith(Description(q), "Question: \"" + q.question + "\"\n")
    ensures StartsWith(Description(q)[|Opening(q)|..], Profile(q))
    ensures StartsWith(Description(q)[|Opening(q)| + |Profile(q)|..], Coverage(q))
  {
    SplitAt3(Description(q), Opening(q), Profile(q), Coverage(q),
             KindSentence(q), ImageSentence(q), RepeatSentence(q));
  }

  /** The description is the heading followed by the rest. */
  lemma AfterHeading(q: Question)
    ensures Description(q)[|Heading(q)|..] == KindSentence(q) + (ImageSentence(q) + RepeatSentence(q))
  {
    Associate(Heading(q) + KindSentence(q), ImageSentence(q), RepeatSentence(q));
    Associate(Heading(q), KindSentence(q), ImageSentence(q) + RepeatSentence(q));
    Split(Heading(q), KindSentence(q) + (ImageSentence(q) + RepeatSentence(q)));
  }

  /** Which kind sentence is chosen, and where it and its alternative
      first differ. */
  lemma KindSentenceShape(q: Question)
    ensures IsMcqWithOptions(q) ==> StartsWith(KindSentence(q), McqLead)
    ensures !IsMcqWithOptions(q) ==> StartsWith(KindSentence(q), DescriptiveSentence)
    ensures |McqLead| > 8 && |DescriptiveSentence| > 8 && McqLead[8] != DescriptiveSentence[8]
    ensures |KindSentence(q)| >= 2 && KindSentence(q)[|KindSentence(q)| - 1] == ' '
  {
    assert McqLead[8] == 'M' && DescriptiveSentence[8] == 'd';
    if IsMcqWithOptions(q) {
      var j := Join(q.options.value, ", ");
      Split(McqLead, j);
      PrefixExtends(McqLead + j, ". ", McqLead);
      Split(McqLead + j, ". ");
    } else {
      Split(DescriptiveSentence, "");
    }
  }

  /** Right after the heading comes exactly one of the two kind sentences:
      the option list for a multiple choice question that has options, the
      descriptive sentence otherwise. */
  lemma KindFollowsHeading(q: Question)
    ensures var rest := Description(q)[|Heading(q)|..];
      && StartsWith(rest, KindSentence(q))
      && (IsMcqWithOptions(q) ==> StartsWith(rest, McqLead + Join(q.options.value, ", ") + ". "))
      && (!IsMcqWithOptions(q) ==> StartsWith(rest, DescriptiveSentence))
      && (StartsWith(rest, McqLead) <==> IsMcqWithOptions(q))
      && (StartsWith(rest, DescriptiveSentence) <==> !IsMcqWithOptions(q))
  {
    var rest := Description(q)[|Heading(q)|..];
    var k := KindSentence(q);
    AfterHeading(q);
    Split(k, ImageSentence(q) + RepeatSentence(q));
    KindSentenceShape(q);
    if IsMcqWithOptions(q) {
      PrefixExtends(k, ImageSentence(q) + RepeatSentence(q), McqLead);
      PrefixesDisagree(rest, McqLead, DescriptiveSentence, 8);
    } else {
      PrefixExtends(k, ImageSentence(q) + RepeatSentence(q), DescriptiveSentence);
      PrefixesDisagree(rest, DescriptiveSentence, McqLead, 8);
    }
  }

  /** The image sentence is present, and opens with its lead, exactly when
      the question shows an image; the repeat sentence is empty or the note. */
  lemma ImageAndRepeatShape(q: Question)
    ensures ShowsImage(q) ==> StartsWith(ImageSentence(q), ImageLead)
    ensures !ShowsImage(q) ==> ImageSentence(q) == ""
    ensures RepeatSentence(q) == "" || RepeatSentence(q) == RepeatedNote
    ensures |ImageLead| > 1 && |RepeatedNote| > 1 && ImageLead[1] != RepeatedNote[1]
  {
    assert ImageLead[1] == 't' && RepeatedNote[1] == 'h';
    if ShowsImage(q) {
      var lead := ImageLead + q.imageDescription.value;
      Split(ImageLead, q.imageDescription.value);
      PrefixExtends(lead, "\". ", ImageLead);
    }
  }

  /** The image sentence follows the kind sentence exactly when the question
      contains images and has a non-empty image description. */
  lemma ImageFollowsKind(q: Question)
    ensures var rest := Description(q)[|Heading(q)| + |KindSentence(q)|..];
      && (ShowsImage(q) ==> StartsWith(rest, ImageLead + q.imageDescription.value + "\". "))
      && (StartsWith(rest, ImageLead) <==> ShowsImage(q))
  {
    var i := ImageSentence(q);
    var r := RepeatSentence(q);
    DropTwo(Heading(q), KindSentence(q), i, r);
    var rest := Description(q)[|Heading(q)| + |KindSentence(q)|..];
    ImageAndRepeatShape(q);
    if ShowsImage(q) {
      Split(i, r);
      PrefixExtends(i, r, ImageLead);
    } else if q.isRepeated {
      assert rest == RepeatedNote;
      Split(RepeatedNote, "");
      PrefixesDisagree(rest, RepeatedNote, ImageLead, 1);
    }
  }

  /** The last sentence is the repeated-exam note exactly when the question
      is marked as repeated. */
  lemma RepeatedNoteIsLast(q: Question)
    ensures EndsWith(Description(q), RepeatedNote) <==> q.isRepeated
  {
    var d := Description(q);
    var front := Heading(q) + KindSentence(q) + ImageSentence(q);
    Split(front, RepeatSentence(q));
    if !q.isRepeated {
      var k := KindSentence(q);
      KindSentenceShape(q);
      assert d == front;
      assert d[|d| - 1] == ' ' by {
        if ShowsImage(q) {
          Split(ImageLead + q.imageDescription.value, "\". ");
        } else {
          Split(Heading(q), k);
        }
      }
      assert RepeatedNote[|RepeatedNote| - 1] == '.';
    }
  }

  /** `isEitherOr` and `otherQuestion` never reach the description. */
  lemma EitherOrIgnored(q: Question, isEitherOr: bool, otherQuestion: Option<string>)
    ensures Description(q.(isEitherOr := isEitherOr, otherQuestion := otherQuestion)) == Description(q)
  {
  }

  /** A multiple choice question with options A and B lists them separated
      by a comma and a space. */
  lemma McqOptionsExample(q: Question)
    requires q.isMcq && q.options == Some(["A", "B"])
    ensures Contains(Description(q), McqTopic + "A, B")
  {
    var listed := Join(q.options.value, ", ");
    assert listed == "A, B" by {
      JoinTwo("A", "B", ", ");
    }
    KindFollowsHeading(q);
    ListedAfter(Description(q), |Heading(q)|, listed);
  }

  lemma JoinTwo(a: string, b: string, sep: string)
    ensures Join([a, b], sep) == a + sep + b
  {
    assert [a, b][1..] == [b];
  }

  /** An option sentence found at offset `h` puts its options text in the
      string. */
  lemma ListedAfter(d: string, h: nat, listed: string)
    requires h <= |d| && StartsWith(d[h..], McqLead + listed + ". ")
    ensures Contains(d, McqTopic + listed)
  {
    var core := McqTopic + listed;
    var p := McqLead + listed + ". ";
    assert p == "It is a " + core + ". ";
    assert p[8..8 + |core|] == core;
    assert d[h + 8..h + 8 + |core|] == d[h..][..|p|][8..8 + |core|];
    assert OccursAt(d, core, h + 8);
  }

  /** An empty options array is still truthy: the option sentence appears
      with an empty list. */
  lemma EmptyOptionsStillMcq(q: Question)
    requires q.isMcq && q.options == Some([])
    ensures StartsWith(Description(q)[|Heading(q)|..], McqLead + ". ")
  {
    KindFollowsHeading(q);
  }

  /** An empty image description is falsy: no image sentence. */
  lemma EmptyImageDescriptionOmitted(q: Question)
    requires q.imageDescription == Some("")
    ensures Description(q) == Heading(q) + KindSentence(q) + RepeatSentence(q)
  {
  }
}
