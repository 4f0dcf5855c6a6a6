/** The exam-fee payment form (src/components/payment/PaymentForm.tsx): the
    method choice, the entered card or phone details, the rule that disables
    the pay button and the simulated payment. */
module PaymentForm {

  datatype PaymentMethod = Stripe | CinetPay

  /** The `disabled` expression of the pay button: with a card, any empty card
      field; with mobile money, an empty phone number. */
  predicate PayDisabled(selectedMethod: PaymentMethod, cardNumber: string, expiryDate: string, cvv: string,
                        phoneNumber: string) {
    || (selectedMethod == Stripe && (cardNumber == "" || expiryDate == "" || cvv == ""))
    || (selectedMethod == CinetPay && phoneNumber == "")
  }

  /** With a card the phone number does not matter, and the button is enabled
      exactly when the three card fields are filled. */
  lemma StripeNeedsCardFields(cardNumber: string, expiryDate: string, cvv: string, phone: string, otherPhone: string)
    ensures PayDisabled(Stripe, cardNumber, expiryDate, cvv, phone) == PayDisabled(Stripe, cardNumber, expiryDate, cvv, otherPhone)
    ensures !PayDisabled(Stripe, cardNumber, expiryDate, cvv, phone) <==> cardNumber != "" && expiryDate != "" && cvv != ""
  {
  }

  /** With mobile money the card fields do not matter, and the button is
      enabled exactly when a phone number is entered. */
  lemma CinetPayNeedsPhone(cardNumber: string, expiryDate: string, cvv: string,
                           otherCard: string, otherExpiry: string, otherCvv: string, phone: string)
    ensures PayDisabled(CinetPay, cardNumber, expiryDate, cvv, phone) == PayDisabled(CinetPay, otherCard, otherExpiry, otherCvv, phone)
    ensures !PayDisabled(CinetPay, cardNumber, expiryDate, cvv, phone) <==> phone != ""
  {
  }

  class PaymentFormState {
    var selectedMethod: PaymentMethod
    var isProcessing: bool
    var cardNumber: string
    var expiryDate: string
    var cvv: string
    var phoneNumber: string
    /** How many times `onPaymentSuccess` has been called. */
    var successCalls: nat

    /** Card payment preselected, nothing entered, nothing processing. */
    constructor ()
      ensures selectedMethod == Stripe && !isProcessing && successCalls == 0
      ensures cardNumber == "" && expiryDate == "" && cvv == "" && phoneNumber == ""
      ensures Disabled()
    {
      selectedMethod := Stripe;
      isProcessing := false;
      cardNumber, expiryDate, cvv, phoneNumber := "", "", "", "";
      successCalls := 0;
    }

    predicate Disabled()
      reads this
    {
      PayDisabled(selectedMethod, cardNumber, expiryDate, cvv, phoneNumber)
    }

    /** Clicking a method card: only the choice changes; what was typed stays. */
    method SelectMethod(m: PaymentMethod)
      modifies this`selectedMethod
      ensures selectedMethod == m
    {
      selectedMethod := m;
    }

    method SetCardNumber(v: string)
      modifies this`cardNumber
      ensures cardNumber == v
    {
      cardNumber := v;
    }

    method SetExpiryDate(v: string)
      modifies this`expiryDate
      ensures expiryDate == v
    {
      expiryDate := v;
    }

    method SetCvv(v: string)
      modifies this`cvv
      ensures cvv == v
    {
      cvv := v;
    }

    method SetPhoneNumber(v: string)
      modifies this`phoneNumber
      ensures phoneNumber == v
    {
      phoneNumber := v;
    }

    /** `handlePayment`, reached through the pay button, which is clicked only
        while it is enabled: processing is shown while the simulated payment
        runs, then cleared, and the success callback is called once; there is
        no failure outcome. `shownProcessing` is the flag during the wait. */
    method HandlePayment() returns (shownProcessing: bool)
      requires !Disabled()
      modifies this`isProcessing, this`successCalls
      ensures shownProcessing && !isProcessing
      ensures successCalls == old(successCalls) + 1
      ensures !Disabled()
    {
      isProcessing := true;
      shownProcessing := isProcessing;
      isProcessing := false;
      successCalls := successCalls + 1;
    }
  }

  /** Changing method and back keeps the card details, so the button's state
      for the card comes back as it was. */
  method SwitchAndBack(form: PaymentFormState) returns (disabledBefore: bool, disabledAfter: bool)
    requires form.selectedMethod == Stripe
    modifies form
    ensures disabledBefore == disabledAfter
    ensures form.selectedMethod == Stripe
  {
    disabledBefore := form.Disabled();
    form.SelectMethod(CinetPay);
    form.SelectMethod(Stripe);
    disabledAfter := form.Disabled();
  }
}
